/** The registry object, with revocation as a worklist over the child lists. */
module CapRegistries {
  import opened Capabilities
  import opened MachineWords

  /** The worklist of a revocation of `c`: `seen` has been marked, `stack` is still
      to do. Every entry hangs below something seen, so no entry comes up twice. */
  ghost predicate Walking(r: Registry, c: CapId, stack: seq<CapId>, seen: set<CapId>) {
    && c in r.caps && (c in seen || c in stack)
    && (forall x | x in seen :: Hangs(r, c, seen, x))
    && (forall i | 0 <= i < |stack| :: Hangs(r, c, seen, stack[i]) && stack[i] !in seen)
    && (forall i, j | 0 <= i < j < |stack| :: stack[i] != stack[j])
    && (forall p, y | p in seen && p in r.children && y in r.children[p] :: y in seen || y in stack)
  }

  ghost predicate Hangs(r: Registry, c: CapId, seen: set<CapId>, x: CapId) {
    x in r.caps && Descends(r.caps, x, c) && (x == c || (r.caps[x].parent.Some? && r.caps[x].parent.value in seen))
  }

  lemma {:induction false} DescendsUp(caps: CapMap, k: CapId, c: CapId)
    requires Descends(caps, k, c)
    ensures c <= k
    decreases k
  {
    if k != c {
      DescendsUp(caps, caps[k].parent.value, c);
    }
  }

  function Children(r: Registry, p: CapId): seq<CapId> {
    if p in r.children then r.children[p] else []
  }

  lemma KidsOk(r: Registry, p: CapId, i: nat)
    requires RegistryOk(r) && i < |Children(r, p)|
    ensures var y := Children(r, p)[i]; y in r.caps && r.caps[y].parent == Some(p) && p < y
    ensures forall j | 0 <= j < i :: Children(r, p)[j] != Children(r, p)[i]
  {
    hide Contains, Descends;
    assert ChildrenOk(r, p);
    assert LinkOk(r, Children(r, p)[i]);
  }

  lemma Child(r: Registry, c: CapId, stack: seq<CapId>, seen: set<CapId>, next: CapId, i: nat)
    requires RegistryOk(r) && Walking(r, c, stack + [next], seen) && i < |Children(r, next)|
    ensures var y := Children(r, next)[i]; y !in seen + {next} && y !in stack && Hangs(r, c, seen + {next}, y)
  {
    KidsOk(r, next, i);
    hide RegistryOk;
    var y, work := Children(r, next)[i], stack + [next];
    assert work[|stack|] == next;
    DescendsUp(r.caps, next, c);
    forall k | 0 <= k < |stack|
      ensures stack[k] != y
    {
      assert work[k] == stack[k];
    }
  }

  lemma StackAfter(r: Registry, c: CapId, stack: seq<CapId>, seen: set<CapId>, next: CapId, i: nat)
    requires RegistryOk(r) && Walking(r, c, stack + [next], seen) && i < |stack + Children(r, next)|
    ensures var stack' := stack + Children(r, next);
      && Hangs(r, c, seen + {next}, stack'[i]) && stack'[i] !in seen + {next}
      && forall j | 0 <= j < i :: stack'[j] != stack'[i]
  {
    hide RegistryOk, Descends;
    var work, kids := stack + [next], Children(r, next);
    if i < |stack| {
      assert work[i] == stack[i] && work[|stack|] == next;
      assert forall j | 0 <= j < i :: work[j] == stack[j];
    } else {
      Child(r, c, stack, seen, next, i - |stack|);
      KidsOk(r, next, i - |stack|);
    }
  }

  lemma WalkStep(r: Registry, c: CapId, stack: seq<CapId>, seen: set<CapId>, next: CapId)
    requires RegistryOk(r) && Walking(r, c, stack + [next], seen)
    ensures Walking(r, c, stack + Children(r, next), seen + {next})
    ensures next in r.caps && next !in seen
  {
    hide RegistryOk, Descends;
    var work, stack', seen' := stack + [next], stack + Children(r, next), seen + {next};
    assert work[|stack|] == next;
    forall i | 0 <= i < |stack'|
      ensures Hangs(r, c, seen', stack'[i]) && stack'[i] !in seen'
      ensures forall j | 0 <= j < i :: stack'[j] != stack'[i]
    {
      StackAfter(r, c, stack, seen, next, i);
    }
    forall p, y | p in seen' && p in r.children && y in r.children[p]
      ensures y in seen' || y in stack'
    {
      if p != next {
        assert y in seen || y in work;
      }
    }
  }

  lemma WalkPop(r: Registry, c: CapId, stack: seq<CapId>, seen: set<CapId>)
    requires RegistryOk(r) && stack != [] && Walking(r, c, stack, seen)
    ensures var next := stack[|stack| - 1];
      && Walking(r, c, stack[..|stack| - 1] + Children(r, next), seen + {next})
      && next in r.caps && next !in seen
  {
    hide RegistryOk, Walking;
    assert stack == stack[..|stack| - 1] + [stack[|stack| - 1]];
    WalkStep(r, c, stack[..|stack| - 1], seen, stack[|stack| - 1]);
  }

  lemma ParentOk(r: Registry, k: CapId)
    requires RegistryOk(r) && k in r.caps && r.caps[k].parent.Some?
    ensures var p := r.caps[k].parent.value; p in r.caps && p < k && p in r.children && k in r.children[p]
  {
    assert LinkOk(r, k);
  }

  /** When the worklist is empty, exactly the descendants have been seen. */
  lemma {:induction false} WalkDone(r: Registry, c: CapId, seen: set<CapId>, k: CapId)
    requires RegistryOk(r) && Walking(r, c, [], seen) && k in r.caps
    ensures k in seen <==> Descends(r.caps, k, c)
    decreases k
  {
    hide RegistryOk;
    if k != c && Descends(r.caps, k, c) {
      ParentOk(r, k);
      WalkDone(r, c, seen, r.caps[k].parent.value);
    }
  }

  function Marked(caps: CapMap, seen: set<CapId>): CapMap {
    map k | k in caps :: if k in seen then caps[k].(revoked := true) else caps[k]
  }

  class CapRegistry {
    var nextCap: nat
    var caps: CapMap
    var children: map<CapId, seq<CapId>>

    ghost function Value(): Registry
      reads this
    {
      Registry(nextCap, caps, children)
    }

    constructor ()
      ensures Value() == EMPTY
    {
      nextCap, caps, children := 0, map[], map[];
    }

    method AllocCap() returns (cap: CapId)
      modifies `nextCap
      ensures cap == nextCap == old(nextCap) + 1
    {
      nextCap := nextCap + 1;
      cap := nextCap;
    }

    method MintRoot(target: ObjectId, objectType: ObjectType, rights: Rights) returns (cap: CapId)
      modifies this
      ensures (Value(), cap) == Capabilities.MintRoot(old(Value()), target, objectType, rights)
    {
      cap := AllocCap();
      caps := caps[cap := Capability(target, objectType, rights, None, false, true)];
    }

    method Delegate(parent: CapId, rights: Rights) returns (r: CkResult<CapId>)
      modifies this
      ensures (Value(), r) == Capabilities.Delegate(old(Value()), parent, rights)
    {
      if parent !in caps {
        return Err(BadCap);
      }
      var p := caps[parent];
      if p.revoked {
        return Err(Revoked);
      }
      if !p.delegable || !Contains(p.rights, DELEGATE) {
        return Err(NoRight);
      }
      if !Contains(p.rights, rights) {
        return Err(NoRight);
      }
      var cap := AllocCap();
      caps := caps[cap := Capability(p.target, p.objectType, rights, Some(parent), false, Contains(rights, DELEGATE))];
      children := children[parent := (if parent in children then children[parent] else []) + [cap]];
      r := Ok(cap);
    }

    /** Marks the capability and exactly its transitive descendants; the loop ends
        on every well-formed registry. */
    method Revoke(cap: CapId) returns (r: CkResult<()>)
      requires RegistryOk(Value())
      modifies this
      ensures (Value(), r) == Capabilities.Revoke(old(Value()), cap)
    {
      if cap !in caps {
        return Err(BadCap);
      }
      ghost var r0 := Value();
      var stack := [cap];
      ghost var seen: set<CapId> := {};
      MarkedNone(r0.caps);
      WalkStart(r0, cap);
      hide RegistryOk, Marked, Walking, RevokeFrom;
      while stack != []
        invariant Walking(r0, cap, stack, seen)
        invariant caps == Marked(r0.caps, seen) && children == r0.children && nextCap == r0.next
        decreases r0.caps.Keys - seen
      {
        var next, rest := stack[|stack| - 1], stack[..|stack| - 1];
        WalkPop(r0, cap, stack, seen);
        MarkedMore(r0.caps, seen, next);
        if next in caps {
          caps := caps[next := caps[next].(revoked := true)];
        }
        stack := rest + if next in children then children[next] else [];
        seen := seen + {next};
      }
      MarkedAll(r0, cap, seen);
      r := Ok(());
    }
  }

  lemma WalkStart(r: Registry, c: CapId)
    requires c in r.caps
    ensures Walking(r, c, [c], {})
  {
  }

  lemma MarkedNone(caps: CapMap)
    ensures Marked(caps, {}) == caps
  {
  }

  lemma MarkedMore(caps: CapMap, seen: set<CapId>, next: CapId)
    requires next in caps
    ensures next in Marked(caps, seen)
    ensures Marked(caps, seen)[next := Marked(caps, seen)[next].(revoked := true)] == Marked(caps, seen + {next})
  {
  }

  lemma MarkedAll(r: Registry, c: CapId, seen: set<CapId>)
    requires RegistryOk(r) && Walking(r, c, [], seen)
    ensures Marked(r.caps, seen) == RevokeFrom(r.caps, c)
  {
    hide RegistryOk, Walking;
    forall k | k in r.caps
      ensures k in seen <==> Descends(r.caps, k, c)
    {
      WalkDone(r, c, seen, k);
    }
  }
}
