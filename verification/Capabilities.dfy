/** Capability resolution: a registry that keeps types unique, the in-place
    cascade that switches capabilities off until nothing changes, and the service
    that joins the two. The cascade is proved to compute the greatest
    dependency-closed set of enabled capabilities, for any list of descriptors. */
module Capabilities {
  import opened Wrappers

  datatype Descriptor = Descriptor(
    ty: string,
    displayName: string,
    description: string,
    phase: string,
    backendID: string,
    dependsOn: seq<string>,
    grants: seq<string>,
    defaultEnabled: bool)

  /** Persisted toggles; None stands for a nil preferences value. */
  type Preferences = Option<map<string, bool>>

  /** CapabilityPreferences.IsEnabled. */
  predicate IsEnabled(prefs: Preferences, t: string, fallback: bool) {
    if prefs.Some? && t in prefs.value then prefs.value[t] else fallback
  }

  predicate IsAvailable(available: map<string, bool>, t: string) {
    t in available && available[t]
  }

  // ---- the dependency graph ----------------------------------------------

  /** What resolution knows of one descriptor before the cascade. */
  datatype Node = Node(ty: string, deps: seq<string>, available: bool, enabled: bool)

  function NodeOf(d: Descriptor, available: map<string, bool>, prefs: Preferences): Node {
    Node(d.ty, d.dependsOn, IsAvailable(available, d.ty), IsEnabled(prefs, d.ty, d.defaultEnabled))
  }

  function Nodes(ds: seq<Descriptor>, available: map<string, bool>, prefs: Preferences): (ns: seq<Node>)
    ensures |ns| == |ds|
    ensures forall i :: 0 <= i < |ds| ==> ns[i] == NodeOf(ds[i], available, prefs)
  {
    seq(|ds|, i requires 0 <= i < |ds| => NodeOf(ds[i], available, prefs))
  }

  /** The last node of a type, which is the one a type lookup yields; -1 if none. */
  function Target(ns: seq<Node>, t: string): (j: int)
    ensures -1 <= j < |ns|
    ensures j >= 0 ==> ns[j].ty == t
    ensures forall i :: j < i < |ns| ==> ns[i].ty != t
  {
    if ns == [] then -1
    else if ns[|ns| - 1].ty == t then |ns| - 1
    else Target(ns[..|ns| - 1], t)
  }

  /** Node `i` depends on the registered node `j`; unregistered names are ignored. */
  ghost predicate Edge(ns: seq<Node>, i: int, j: int) {
    0 <= i < |ns| && 0 <= j < |ns| && exists d :: d in ns[i].deps && Target(ns, d) == j
  }

  ghost predicate IsPath(ns: seq<Node>, p: seq<int>) {
    forall k :: 0 <= k < |p| - 1 ==> Edge(ns, p[k], p[k + 1])
  }

  /** One or more dependency edges lead from `i` to `j`. */
  ghost predicate Reaches(ns: seq<Node>, i: int, j: int) {
    exists p :: IsPathFromTo(ns, p, i, j)
  }

  ghost predicate IsPathFromTo(ns: seq<Node>, p: seq<int>, i: int, j: int) {
    |p| >= 2 && p[0] == i && p[|p| - 1] == j && IsPath(ns, p)
  }

  /** The specification: it started enabled, and so did every registered node it
      reaches, each of which is available. Cycles are no exception. */
  ghost predicate Survives(ns: seq<Node>, i: int) {
    && 0 <= i < |ns|
    && ns[i].enabled
    && forall j :: Reaches(ns, i, j) ==> 0 <= j < |ns| && ns[j].enabled && ns[j].available
  }

  /** A set of initially enabled nodes whose dependencies are available and in it. */
  ghost predicate Closed(ns: seq<Node>, s: set<int>) {
    && (forall i :: i in s ==> 0 <= i < |ns| && ns[i].enabled)
    && (forall i, j :: i in s && Edge(ns, i, j) ==> j in s && ns[j].available)
  }

  lemma EdgeReaches(ns: seq<Node>, i: int, j: int)
    requires Edge(ns, i, j)
    ensures Reaches(ns, i, j)
    ensures forall k :: Reaches(ns, j, k) ==> Reaches(ns, i, k)
  {
    assert IsPathFromTo(ns, [i, j], i, j);
    forall k | Reaches(ns, j, k) ensures Reaches(ns, i, k) {
      var p :| IsPathFromTo(ns, p, j, k);
      var q := [i] + p;
      assert forall n :: 1 <= n < |q| ==> q[n] == p[n - 1];
      assert IsPathFromTo(ns, q, i, k);
    }
  }

  /** A survivor's dependencies survive and are available. */
  lemma SurvivorsStep(ns: seq<Node>, i: int, j: int)
    requires Survives(ns, i) && Edge(ns, i, j)
    ensures Survives(ns, j) && ns[j].available
  {
    EdgeReaches(ns, i, j);
  }

  lemma {:induction false} PathStaysInside(ns: seq<Node>, s: set<int>, p: seq<int>)
    requires Closed(ns, s) && |p| >= 2 && p[0] in s && IsPath(ns, p)
    ensures p[|p| - 1] in s && ns[p[|p| - 1]].available
  {
    assert Edge(ns, p[0], p[1]);
    if |p| > 2 {
      forall k | 0 <= k < |p[1..]| - 1 ensures Edge(ns, p[1..][k], p[1..][k + 1]) {
        assert Edge(ns, p[k + 1], p[k + 2]);
      }
      PathStaysInside(ns, s, p[1..]);
    }
  }

  /** The survivors are the greatest closed set: they are closed, and every closed
      set lies within them. */
  lemma SurvivorsAreGreatestClosed(ns: seq<Node>, s: set<int>)
    ensures Closed(ns, set i | 0 <= i < |ns| && Survives(ns, i))
    ensures Closed(ns, s) ==> forall i :: i in s ==> Survives(ns, i)
  {
    forall i, j | Survives(ns, i) && Edge(ns, i, j) ensures Survives(ns, j) && ns[j].available {
      SurvivorsStep(ns, i, j);
    }
    if Closed(ns, s) {
      forall i, j | i in s && Reaches(ns, i, j) ensures 0 <= j < |ns| && ns[j].enabled && ns[j].available {
        var p :| IsPathFromTo(ns, p, i, j);
        PathStaysInside(ns, s, p);
      }
    }
  }

  // ---- what toggles do ---------------------------------------------------

  /** The toggle of a type, where one is stored. */
  function Toggle(prefs: Preferences, t: string): Option<bool> {
    match prefs
    case None => None
    case Some(m) => if t in m then Some(m[t]) else None
  }

  /** A capability without dependencies is enabled exactly if its toggle is on, or it has
      none and is enabled by default. */
  lemma LeafSurvivesIff(ds: seq<Descriptor>, available: map<string, bool>, prefs: Preferences, i: nat)
    requires i < |ds| && ds[i].dependsOn == []
    ensures Survives(Nodes(ds, available, prefs), i) <==>
              Toggle(prefs, ds[i].ty) == Some(true) || (Toggle(prefs, ds[i].ty) == None && ds[i].defaultEnabled)
  {
    var ns := Nodes(ds, available, prefs);
    forall j ensures !Reaches(ns, i, j) {
      forall p ensures !IsPathFromTo(ns, p, i, j) {
        assert |p| >= 2 && p[0] == i ==> !Edge(ns, p[0], p[1]);
      }
    }
  }

  /** No capability is enabled that is switched off, or that needs one which is switched
      off or unavailable, however indirectly. */
  lemma SurvivorNeeds(ds: seq<Descriptor>, available: map<string, bool>, prefs: Preferences, i: nat, j: nat)
    requires i < |ds| && Survives(Nodes(ds, available, prefs), i)
    ensures Toggle(prefs, ds[i].ty) != Some(false)
    ensures j < |ds| && Reaches(Nodes(ds, available, prefs), i, j) ==>
              && Toggle(prefs, ds[j].ty) != Some(false)
              && ds[j].ty in available && available[ds[j].ty]
  {
  }

  // ---- the cascade -------------------------------------------------------

  class Capability {
    const ty: string
    const displayName: string
    const description: string
    const phase: string
    const backendID: string
    const dependsOn: seq<string>
    const grants: seq<string>
    const available: bool
    var enabled: bool

    constructor (d: Descriptor, available: bool, enabled: bool)
      ensures ty == d.ty && displayName == d.displayName && description == d.description && phase == d.phase
      ensures backendID == d.backendID && dependsOn == d.dependsOn && grants == d.grants
      ensures this.available == available && this.enabled == enabled
    {
      ty, displayName, description, phase := d.ty, d.displayName, d.description, d.phase;
      backendID, dependsOn, grants := d.backendID, d.dependsOn, d.grants;
      this.available, this.enabled := available, enabled;
    }

    predicate IsActive()
      reads this
    {
      available && enabled
    }
  }

  /** `caps` are distinct objects standing for `ns`, apart from their Enabled flags. */
  ghost predicate Represents(caps: seq<Capability>, ns: seq<Node>) {
    && |caps| == |ns|
    && (forall i, j :: 0 <= i < j < |caps| ==> caps[i] != caps[j])
    && (forall i :: 0 <= i < |caps| ==>
          caps[i].ty == ns[i].ty && caps[i].dependsOn == ns[i].deps && caps[i].available == ns[i].available)
  }

  ghost predicate Indexes(byType: map<string, Capability>, caps: seq<Capability>, ns: seq<Node>)
    requires |caps| == |ns|
  {
    forall t :: if Target(ns, t) < 0 then t !in byType else t in byType && byType[t] == caps[Target(ns, t)]
  }

  /** The Enabled flags, as a value. */
  ghost function Flags(caps: seq<Capability>): (f: seq<bool>)
    reads set c | c in caps
    ensures |f| == |caps| && forall i :: 0 <= i < |caps| ==> f[i] == caps[i].enabled
  {
    seq(|caps|, i requires 0 <= i < |caps| reads set c | c in caps => caps[i].enabled)
  }

  ghost function On(f: seq<bool>): set<int> {
    set i | 0 <= i < |f| && f[i]
  }

  /** The dependency `dep` is registered but not active. */
  ghost predicate Blocks(ns: seq<Node>, f: seq<bool>, dep: string)
    requires |f| == |ns|
  {
    Target(ns, dep) >= 0 && !(ns[Target(ns, dep)].available && f[Target(ns, dep)])
  }

  /** Node `i` is off or has no blocking dependency. */
  ghost predicate Settled(ns: seq<Node>, f: seq<bool>, i: int)
    requires |f| == |ns|
  {
    0 <= i < |ns| && f[i] ==> forall d :: d in ns[i].deps ==> !Blocks(ns, f, d)
  }

  /** No survivor has been switched off. */
  ghost predicate KeepsSurvivors(ns: seq<Node>, f: seq<bool>)
    requires |f| == |ns|
  {
    forall i :: Survives(ns, i) ==> f[i]
  }

  /** Switching off a capability with an inactive dependency loses no survivor. */
  lemma BlockedIsNoSurvivor(ns: seq<Node>, f: seq<bool>, i: int, dep: string)
    requires |f| == |ns| && KeepsSurvivors(ns, f)
    requires 0 <= i < |ns| && dep in ns[i].deps && Blocks(ns, f, dep)
    ensures !Survives(ns, i)
  {
    var j := Target(ns, dep);
    assert Edge(ns, i, j);
    if Survives(ns, i) {
      SurvivorsStep(ns, i, j);
    }
  }

  /** One dependency scan with its early exit. */
  method HasInactiveDependency(c: Capability, byType: map<string, Capability>, ghost caps: seq<Capability>,
                               ghost ns: seq<Node>)
    returns (blocked: bool)
    requires Represents(caps, ns) && Indexes(byType, caps, ns)
    ensures blocked <==> exists d :: d in c.dependsOn && Blocks(ns, Flags(caps), d)
  {
    for k := 0 to |c.dependsOn|
      invariant forall n :: 0 <= n < k ==> !Blocks(ns, Flags(caps), c.dependsOn[n])
    {
      var dep := c.dependsOn[k];
      assert dep in c.dependsOn;
      if dep in byType {
        var depCap := byType[dep];
        if !depCap.IsActive() {
          assert Blocks(ns, Flags(caps), dep);
          return true;
        }
      }
    }
    return false;
  }

  lemma RepresentsSnoc(caps: seq<Capability>, ns: seq<Node>, c: Capability, n: Node)
    requires Represents(caps, ns) && c !in caps
    requires c.ty == n.ty && c.dependsOn == n.deps && c.available == n.available
    ensures Represents(caps + [c], ns + [n])
  {
  }

  lemma IndexesSnoc(byType: map<string, Capability>, caps: seq<Capability>, ns: seq<Node>, c: Capability, n: Node)
    requires |caps| == |ns| && Indexes(byType, caps, ns) && c.ty == n.ty
    ensures Indexes(byType[n.ty := c], caps + [c], ns + [n])
  {
    forall t ensures Target(ns + [n], t) == if n.ty == t then |ns| else Target(ns, t) {
      assert (ns + [n])[..|ns|] == ns;
    }
  }

  /** The value for one descriptor before dependencies are looked at. */
  method Resolvable(d: Descriptor, available: map<string, bool>, prefs: Preferences) returns (c: Capability)
    ensures fresh(c) && Describes(c, d)
    ensures var n := NodeOf(d, available, prefs);
            c.ty == n.ty && c.dependsOn == n.deps && c.available == n.available && c.enabled == n.enabled
  {
    c := new Capability(d, IsAvailable(available, d.ty), IsEnabled(prefs, d.ty, d.defaultEnabled));
  }

  /** The first pass: one fresh value per descriptor, later types shadowing earlier. */
  method BuildCapabilities(ds: seq<Descriptor>, available: map<string, bool>, prefs: Preferences)
    returns (caps: seq<Capability>, byType: map<string, Capability>)
    ensures fresh(caps) && Built(caps, byType, Nodes(ds, available, prefs), ds)
  {
    ghost var ns := Nodes(ds, available, prefs);
    caps, byType := [], map[];
    for k := 0 to |ds|
      invariant |caps| == k && fresh(caps) && Built(caps, byType, ns[..k], ds[..k])
    {
      var d := ds[k];
      var c := Resolvable(d, available, prefs);
      assert Built(caps, byType, ns[..k], ds[..k]) && c !in caps;
      assert ns[k] == NodeOf(d, available, prefs);
      BuiltSnoc(caps, byType, ns, ds, k, c);
      caps := caps + [c];
      byType := byType[d.ty := c];
    }
    assert ns[..|ds|] == ns && ds[..|ds|] == ds;
  }

  /** What the first pass has built for the descriptors seen so far. */
  ghost predicate Built(caps: seq<Capability>, byType: map<string, Capability>, ns: seq<Node>, ds: seq<Descriptor>)
    reads caps
  {
    && |caps| == |ds| && Represents(caps, ns) && Indexes(byType, caps, ns)
    && (forall i :: 0 <= i < |caps| ==> caps[i].enabled == ns[i].enabled)
    && (forall i :: 0 <= i < |caps| ==> Describes(caps[i], ds[i]))
  }

  lemma BuiltSnoc(caps: seq<Capability>, byType: map<string, Capability>, ns: seq<Node>, ds: seq<Descriptor>, k: int,
                  c: Capability)
    requires 0 <= k < |ns| == |ds| && Built(caps, byType, ns[..k], ds[..k]) && c !in caps
    requires c.ty == ns[k].ty && c.dependsOn == ns[k].deps
    requires c.available == ns[k].available && c.enabled == ns[k].enabled
    requires Describes(c, ds[k])
    ensures Built(caps + [c], byType[c.ty := c], ns[..k + 1], ds[..k + 1])
  {
    assert ns[..k + 1] == ns[..k] + [ns[k]] && ds[..k + 1] == ds[..k] + [ds[k]];
    IndexesSnoc(byType, caps, ns[..k], c, ns[k]);
    RepresentsSnoc(caps, ns[..k], c, ns[k]);
  }

  predicate Describes(c: Capability, d: Descriptor) {
    && c.ty == d.ty && c.displayName == d.displayName && c.description == d.description && c.phase == d.phase
    && c.backendID == d.backendID && c.dependsOn == d.dependsOn && c.grants == d.grants
  }

  /** Some registered dependency of node `i` is not active. */
  ghost predicate HasBlocker(ns: seq<Node>, f: seq<bool>, i: int)
    requires |f| == |ns| && 0 <= i < |ns|
  {
    exists d :: d in ns[i].deps && Blocks(ns, f, d)
  }

  /** One capability's turn in a sweep: an enabled one with an inactive dependency is
      switched off, any other stays. */
  method Visit(caps: seq<Capability>, byType: map<string, Capability>, ghost ns: seq<Node>, i: nat)
    returns (switched: bool)
    requires i < |caps| && Represents(caps, ns) && Indexes(byType, caps, ns)
    modifies caps[i]
    ensures switched <==> old(Flags(caps))[i] && HasBlocker(ns, old(Flags(caps)), i)
    ensures Flags(caps) == if switched then old(Flags(caps))[i := false] else old(Flags(caps))
  {
    var c := caps[i];
    switched := false;
    if !c.enabled {
      return;
    }
    switched := HasInactiveDependency(c, byType, caps, ns);
    if switched {
      ghost var f := Flags(caps);
      c.enabled := false;
      assert Flags(caps) == f[i := false];
    }
  }

  lemma SwitchingOffKeeps(ns: seq<Node>, f: seq<bool>, i: int)
    requires |f| == |ns| && KeepsSurvivors(ns, f) && 0 <= i < |ns| && HasBlocker(ns, f, i)
    ensures KeepsSurvivors(ns, f[i := false])
  {
    var dep :| dep in ns[i].deps && Blocks(ns, f, dep);
    BlockedIsNoSurvivor(ns, f, i, dep);
  }

  lemma SwitchedOff(f: seq<bool>, i: int)
    requires 0 <= i < |f| && f[i]
    ensures On(f[i := false]) < On(f)
  {
    assert i in On(f);
  }

  /** One sweep of the second pass over all capabilities. */
  method Sweep(caps: seq<Capability>, byType: map<string, Capability>, ghost ns: seq<Node>) returns (changed: bool)
    requires Represents(caps, ns) && Indexes(byType, caps, ns) && KeepsSurvivors(ns, Flags(caps))
    modifies set c | c in caps
    ensures KeepsSurvivors(ns, Flags(caps))
    ensures changed ==> On(Flags(caps)) < On(old(Flags(caps)))
    ensures !changed ==> Flags(caps) == old(Flags(caps)) && forall i :: Settled(ns, Flags(caps), i)
  {
    changed := false;
    ghost var f := Flags(caps);
    ghost var before := f;
    for i := 0 to |caps|
      invariant f == Flags(caps) && Swept(ns, before, f, changed, i)
    {
      var switched := Visit(caps, byType, ns, i);
      SweptOneMore(ns, before, f, Flags(caps), changed, switched, i);
      if switched {
        changed := true;
      }
      f := Flags(caps);
    }
  }

  /** Where a sweep stands after `i` capabilities. */
  ghost predicate Swept(ns: seq<Node>, before: seq<bool>, f: seq<bool>, changed: bool, i: int) {
    |f| == |ns| && KeepsSurvivors(ns, f) &&
    if changed then On(f) < On(before) else f == before && forall k :: k < i ==> Settled(ns, f, k)
  }

  lemma SweptOneMore(ns: seq<Node>, before: seq<bool>, f: seq<bool>, g: seq<bool>, changed: bool, switched: bool,
                     i: nat)
    requires Swept(ns, before, f, changed, i) && i < |ns|
    requires switched <==> f[i] && HasBlocker(ns, f, i)
    requires g == if switched then f[i := false] else f
    ensures Swept(ns, before, g, changed || switched, i + 1)
  {
    if switched {
      SwitchedOff(f, i);
      SwitchingOffKeeps(ns, f, i);
    } else {
      assert Settled(ns, f, i);
    }
  }

  /** A sweep that changed nothing has reached a closed set. */
  lemma StableIsClosed(ns: seq<Node>, f: seq<bool>)
    requires |f| == |ns| && (forall i :: i in On(f) ==> ns[i].enabled) && forall i :: Settled(ns, f, i)
    ensures Closed(ns, On(f))
  {
    forall i, j | i in On(f) && Edge(ns, i, j) ensures j in On(f) && ns[j].available {
      var d :| d in ns[i].deps && Target(ns, d) == j;
      assert Settled(ns, f, i);
    }
  }

  /** ResolveCapabilities: the cascade ends with exactly the survivors enabled, after
      at most one sweep more than there were enabled capabilities. */
  method ResolveCapabilities(ds: seq<Descriptor>, available: map<string, bool>, prefs: Preferences)
    returns (caps: seq<Capability>, ghost sweeps: nat)
    ensures |caps| == |ds| && fresh(caps)
    ensures forall i :: 0 <= i < |ds| ==>
              Describes(caps[i], ds[i]) && caps[i].available == IsAvailable(available, ds[i].ty)
    ensures forall i :: 0 <= i < |ds| ==> (caps[i].enabled <==> Survives(Nodes(ds, available, prefs), i))
    ensures sweeps <= |set i | 0 <= i < |ds| && Nodes(ds, available, prefs)[i].enabled| + 1
  {
    ghost var ns := Nodes(ds, available, prefs);
    var byType;
    caps, byType := BuildCapabilities(ds, available, prefs);
    ghost var f := Flags(caps);
    ghost var start := On(f);
    assert start == set i | 0 <= i < |ds| && ns[i].enabled;
    sweeps := 0;
    var changed := true;
    while changed
      invariant f == Flags(caps) && On(f) <= start && KeepsSurvivors(ns, f)
      invariant !changed ==> forall i :: Settled(ns, f, i)
      invariant sweeps + |On(f)| <= |start| + (if changed then 0 else 1)
      decreases On(f), changed
    {
      changed := Sweep(caps, byType, ns);
      sweeps := sweeps + 1;
      if changed { SmallerSet(On(Flags(caps)), On(f)); }
      f := Flags(caps);
    }
    StableIsClosed(ns, f);
    SurvivorsAreGreatestClosed(ns, On(f));
    assert forall i :: 0 <= i < |ds| ==> (i in On(f) <==> f[i]);
  }

  lemma SmallerSet(a: set<int>, b: set<int>)
    requires a < b
    ensures |a| < |b|
  {
    assert b == a + (b - a);
    assert |b| == |a| + |b - a|;
    assert b - a == {} ==> b == a;
  }

  // ---- order and monotonicity --------------------------------------------

  predicate UniqueTypes(ns: seq<Node>) {
    forall i, j :: 0 <= i < j < |ns| ==> ns[i].ty != ns[j].ty
  }

  /** With unique types the outcome per type does not depend on the order of the
      descriptors. */
  lemma OrderIndependent(ns: seq<Node>, ms: seq<Node>, i: int, k: int)
    requires UniqueTypes(ns) && UniqueTypes(ms) && forall n :: n in ns <==> n in ms
    requires 0 <= i < |ns| && 0 <= k < |ms| && ns[i].ty == ms[k].ty
    ensures Survives(ns, i) <==> Survives(ms, k)
  {
    if Survives(ns, i) { CarryOver(ns, ms, i, k); }
    if Survives(ms, k) { CarryOver(ms, ns, k, i); }
  }

  lemma CarryOver(ns: seq<Node>, ms: seq<Node>, i: int, k: int)
    requires UniqueTypes(ns) && UniqueTypes(ms) && forall n :: n in ns <==> n in ms
    requires 0 <= i < |ns| && 0 <= k < |ms| && ns[i].ty == ms[k].ty
    requires Survives(ns, i)
    ensures Survives(ms, k)
  {
    var s := set b | 0 <= b < |ms| && exists a :: 0 <= a < |ns| && ns[a] == ms[b] && Survives(ns, a);
    assert ns[i] in ms && ms[k] in ns;
    assert k in s;
    forall b, c | b in s && Edge(ms, b, c) ensures c in s && ms[c].available {
      var a :| 0 <= a < |ns| && ns[a] == ms[b] && Survives(ns, a);
      var d :| d in ms[b].deps && Target(ms, d) == c;
      assert ms[c] in ns;
      var e :| 0 <= e < |ns| && ns[e] == ms[c];
      assert Target(ns, d) == e;
      assert Edge(ns, a, e);
      SurvivorsStep(ns, a, e);
    }
    assert Closed(ms, s);
    SurvivorsAreGreatestClosed(ms, s);
  }

  /** `ms` is `ns` with more available and more enabled. */
  predicate Wider(ns: seq<Node>, ms: seq<Node>) {
    && |ns| == |ms|
    && forall i :: 0 <= i < |ns| ==>
         && ns[i].ty == ms[i].ty && ns[i].deps == ms[i].deps
         && (ns[i].available ==> ms[i].available) && (ns[i].enabled ==> ms[i].enabled)
  }

  lemma {:induction false} SameTargets(ns: seq<Node>, ms: seq<Node>, t: string)
    requires Wider(ns, ms)
    ensures Target(ns, t) == Target(ms, t)
  {
  }

  /** Making more types available or enabled never deactivates a capability. */
  lemma ResolutionIsMonotone(ns: seq<Node>, ms: seq<Node>, i: int)
    requires Wider(ns, ms) && Survives(ns, i)
    ensures Survives(ms, i)
    ensures ns[i].available ==> ms[i].available
  {
    var s := set k | 0 <= k < |ns| && Survives(ns, k);
    forall k, j | k in s && Edge(ms, k, j) ensures j in s && ms[j].available {
      var d :| d in ms[k].deps && Target(ms, d) == j;
      SameTargets(ns, ms, d);
      assert Edge(ns, k, j);
      SurvivorsStep(ns, k, j);
    }
    assert Closed(ms, s);
    SurvivorsAreGreatestClosed(ms, s);
  }

  // ---- the registry ------------------------------------------------------

  /** Go's string order. */
  predicate Less(a: string, b: string) {
    b != "" && (a == "" || a[0] < b[0] || (a[0] == b[0] && Less(a[1..], b[1..])))
  }

  lemma {:induction false} LessIsTotal(a: string, b: string)
    ensures a == b || Less(a, b) || Less(b, a)
    ensures !(Less(a, b) && Less(b, a)) && !Less(a, a)
  {
    if a != "" && b != "" {
      LessIsTotal(a[1..], b[1..]);
      assert a == [a[0]] + a[1..] && b == [b[0]] + b[1..];
    }
    if a != "" { LessIsIrreflexive(a); }
  }

  lemma {:induction false} LessIsIrreflexive(a: string)
    ensures !Less(a, a)
  {
    if a != "" { LessIsIrreflexive(a[1..]); }
  }

  lemma {:induction false} LessIsTransitive(a: string, b: string, c: string)
    requires Less(a, b) && Less(b, c)
    ensures Less(a, c)
  {
    if a != "" && a[0] == b[0] && b[0] == c[0] { LessIsTransitive(a[1..], b[1..], c[1..]); }
  }

  ghost predicate Ascending(ds: seq<Descriptor>) {
    forall i, j :: 0 <= i < j < |ds| ==> Less(ds[i].ty, ds[j].ty)
  }

  /** Put a descriptor in its place in an ascending list. */
  function Insert(d: Descriptor, ds: seq<Descriptor>): seq<Descriptor> {
    if ds == [] || Less(d.ty, ds[0].ty) then [d] + ds else [ds[0]] + Insert(d, ds[1..])
  }

  /** `sort.Slice` by type. */
  function SortByType(ds: seq<Descriptor>): seq<Descriptor> {
    if ds == [] then [] else Insert(ds[0], SortByType(ds[1..]))
  }

  lemma {:induction false} InsertKeepsOrder(d: Descriptor, ds: seq<Descriptor>)
    requires Ascending(ds) && forall e :: e in ds ==> e.ty != d.ty
    ensures Ascending(Insert(d, ds))
    ensures multiset(Insert(d, ds)) == multiset(ds) + multiset{d}
  {
    if ds == [] {
    } else if Less(d.ty, ds[0].ty) {
      forall j | 1 <= j < |ds| ensures Less(d.ty, ds[j].ty) { LessIsTransitive(d.ty, ds[0].ty, ds[j].ty); }
    } else {
      assert ds[0] in ds;
      LessIsTotal(d.ty, ds[0].ty);
      var rest := Insert(d, ds[1..]);
      InsertKeepsOrder(d, ds[1..]);
      assert ds == [ds[0]] + ds[1..];
      FirstStaysLeast(ds[0], d, ds[1..], rest);
    }
  }

  lemma FirstStaysLeast(first: Descriptor, d: Descriptor, ds: seq<Descriptor>, rest: seq<Descriptor>)
    requires multiset(rest) == multiset(ds) + multiset{d} && Less(first.ty, d.ty)
    requires forall k :: 0 <= k < |ds| ==> Less(first.ty, ds[k].ty)
    ensures forall k :: 0 <= k < |rest| ==> Less(first.ty, rest[k].ty)
  {
    forall k | 0 <= k < |rest| ensures Less(first.ty, rest[k].ty) {
      assert rest[k] in multiset(rest);
      assert rest[k] == d || rest[k] in ds;
    }
  }

  ghost predicate DistinctTypes(ds: seq<Descriptor>) {
    forall i, j :: 0 <= i < j < |ds| ==> ds[i].ty != ds[j].ty
  }

  lemma {:induction false} SortSorts(ds: seq<Descriptor>)
    requires DistinctTypes(ds)
    ensures Ascending(SortByType(ds)) && multiset(SortByType(ds)) == multiset(ds)
  {
    if ds != [] {
      SortSorts(ds[1..]);
      assert ds == [ds[0]] + ds[1..];
      forall e | e in SortByType(ds[1..]) ensures e.ty != ds[0].ty {
        assert e in multiset(ds[1..]);
      }
      InsertKeepsOrder(ds[0], SortByType(ds[1..]));
    }
  }

  type Table = map<string, Descriptor>

  ghost predicate Keyed(m: Table) {
    forall t :: t in m ==> m[t].ty == t
  }

  /** `ds` lists exactly the registered descriptors. */
  ghost predicate Lists(m: Table, ds: seq<Descriptor>) {
    forall d :: d in ds <==> d.ty in m && m[d.ty] == d
  }

  /** An ascending listing of a table is unique: neither registration order nor map
      iteration order shows in it. */
  lemma {:induction false} AscendingListingIsUnique(ds: seq<Descriptor>, es: seq<Descriptor>)
    requires Ascending(ds) && Ascending(es) && forall d :: d in ds <==> d in es
    ensures ds == es
  {
    assert ds != [] ==> ds[0] in ds;
    assert es != [] ==> es[0] in es;
    if ds != [] && es != [] {
      LessIsTotal(ds[0].ty, es[0].ty);
      assert ds[0] == es[0];
      forall d ensures d in ds[1..] <==> d in es[1..] {
        LessIsIrreflexive(ds[0].ty);
        assert d in ds <==> d == ds[0] || d in ds[1..];
        assert d in es <==> d == es[0] || d in es[1..];
      }
      AscendingListingIsUnique(ds[1..], es[1..]);
    }
  }

  class Registry {
    var descriptors: Table

    ghost predicate Valid()
      reads this
    {
      Keyed(descriptors)
    }

    constructor ()
      ensures Valid() && descriptors == map[]
    {
      descriptors := map[];
    }

    /** An empty or already registered type is refused and nothing changes. */
    method Register(d: Descriptor) returns (ok: bool)
      requires Valid()
      modifies this
      ensures Valid()
      ensures ok <==> d.ty != "" && d.ty !in old(descriptors)
      ensures descriptors == if ok then old(descriptors)[d.ty := d] else old(descriptors)
    {
      if d.ty == "" {
        return false;
      }
      if d.ty in descriptors {
        return false;
      }
      descriptors := descriptors[d.ty := d];
      return true;
    }

    /** The registered descriptors in ascending order of type, gathered in any order. */
    method All() returns (out: seq<Descriptor>)
      requires Valid()
      ensures Ascending(out) && Lists(descriptors, out)
    {
      out := [];
      var todo := descriptors.Keys;
      while todo != {}
        invariant todo <= descriptors.Keys && DistinctTypes(out)
        invariant forall d :: d in out <==> d.ty in descriptors && d.ty !in todo && descriptors[d.ty] == d
        decreases todo
      {
        var t :| t in todo;
        assert forall d :: d in out ==> d.ty != t;
        out := out + [descriptors[t]];
        todo := todo - {t};
      }
      SortSorts(out);
      assert forall d :: d in SortByType(out) <==> d in multiset(out);
      out := SortByType(out);
    }

    /** Agrees with every listing: a descriptor of type `t` is listed exactly when it is
        the one found. */
    method Get(t: string) returns (d: Option<Descriptor>)
      requires Valid()
      ensures d.Some? <==> t in descriptors
      ensures d.Some? ==> d.value.ty == t && descriptors[t] == d.value
      ensures forall ds: seq<Descriptor>, x: Descriptor :: Lists(descriptors, ds) && x.ty == t ==>
                (x in ds <==> d == Some(x))
    {
      return if t in descriptors then Some(descriptors[t]) else None;
    }
  }

  // ---- the service -------------------------------------------------------

  datatype Status = Status(available: bool, enabled: bool, active: bool)

  /** The availability answers for the registered types. */
  function Availability(types: set<string>, resolver: string -> bool): map<string, bool> {
    map t | t in types :: resolver(t)
  }

  /** CompositeAvailabilityResolver: available when any resolver in the chain says so. */
  predicate AnyResolver(resolvers: seq<string -> bool>, t: string) {
    exists n :: 0 <= n < |resolvers| && resolvers[n](t)
  }

  method CompositeIsAvailable(resolvers: seq<string -> bool>, t: string) returns (available: bool)
    ensures available <==> AnyResolver(resolvers, t)
  {
    for n := 0 to |resolvers|
      invariant forall k :: 0 <= k < n ==> !resolvers[k](t)
    {
      if resolvers[n](t) {
        return true;
      }
    }
    return false;
  }

  /** Appending a resolver to the chain never deactivates a capability. */
  lemma MoreResolversKeepActive(ds: seq<Descriptor>, types: set<string>, resolvers: seq<string -> bool>,
                                more: string -> bool, prefs: Preferences, i: int)
    requires Survives(Nodes(ds, Availability(types, t => AnyResolver(resolvers, t)), prefs), i)
    ensures Survives(Nodes(ds, Availability(types, t => AnyResolver(resolvers + [more], t)), prefs), i)
  {
    var few, all := t => AnyResolver(resolvers, t), t => AnyResolver(resolvers + [more], t);
    forall t | few(t) ensures all(t) {
      var n :| 0 <= n < |resolvers| && resolvers[n](t);
      assert (resolvers + [more])[n](t);
    }
    ResolutionIsMonotone(Nodes(ds, Availability(types, few), prefs), Nodes(ds, Availability(types, all), prefs), i);
  }

  lemma ListingNodesUnique(m: Table, ds: seq<Descriptor>, available: map<string, bool>, prefs: Preferences)
    requires Ascending(ds) && Lists(m, ds)
    ensures UniqueTypes(Nodes(ds, available, prefs)) && DistinctTypes(ds)
  {
    forall i, j | 0 <= i < j < |ds| ensures ds[i].ty != ds[j].ty {
      LessIsIrreflexive(ds[i].ty);
    }
  }

  /** GetCapabilities: one status per registered type. A type is active exactly when
      it survives the cascade and is available, whichever listing `ds` of the
      registry the cascade is taken over. */
  method GetCapabilities(registry: Registry, resolver: string -> bool, prefs: Preferences)
    returns (features: map<string, Status>)
    requires registry.Valid()
    ensures features.Keys == registry.descriptors.Keys
    ensures forall ds: seq<Descriptor>, i :: Lists(registry.descriptors, ds) && DistinctTypes(ds) && 0 <= i < |ds| ==>
              && ds[i].ty in features
              && features[ds[i].ty] ==
                 StatusOf(ds[i].ty, resolver,
                     Survives(Nodes(ds, Availability(registry.descriptors.Keys, resolver), prefs), i))
  {
    var descriptors := registry.All();
    ghost var m := registry.descriptors;
    var available := AskAvailability(descriptors, m, resolver);
    var resolved, sweeps := ResolveCapabilities(descriptors, available, prefs);
    ghost var ns := Nodes(descriptors, available, prefs);
    ListingNodesUnique(m, descriptors, available, prefs);
    features := StatusTable(resolved, descriptors, ns, resolver);
    forall t ensures t in features <==> t in m {
      ListedTypes(m, descriptors, t);
    }
    forall ds: seq<Descriptor>, i | Lists(m, ds) && DistinctTypes(ds) && 0 <= i < |ds|
      ensures ds[i].ty in features
      ensures features[ds[i].ty] == StatusOf(ds[i].ty, resolver, Survives(Nodes(ds, available, prefs), i))
    {
      AnyListing(m, descriptors, ds, i, available, prefs);
    }
  }

  lemma ListedTypes(m: Table, ds: seq<Descriptor>, t: string)
    requires Lists(m, ds) && Keyed(m)
    ensures t in m <==> exists n :: 0 <= n < |ds| && ds[n].ty == t
  {
    if t in m {
      assert m[t] in ds;
    }
  }

  /** The loop that asks the resolver for each registered type. */
  method AskAvailability(ds: seq<Descriptor>, ghost m: Table, resolver: string -> bool)
    returns (available: map<string, bool>)
    requires Lists(m, ds) && Keyed(m)
    ensures available == Availability(m.Keys, resolver)
  {
    available := map[];
    for k := 0 to |ds|
      invariant forall t :: t in available <==> exists n :: 0 <= n < k && ds[n].ty == t
      invariant forall t :: t in available ==> available[t] == resolver(t)
    {
      available := available[ds[k].ty := resolver(ds[k].ty)];
    }
    forall t ensures t in available <==> t in m {
      ListedTypes(m, ds, t);
    }
  }

  /** The loop that tabulates the resolved capabilities by type. */
  method StatusTable(resolved: seq<Capability>, ds: seq<Descriptor>, ghost ns: seq<Node>, resolver: string -> bool)
    returns (features: map<string, Status>)
    requires |resolved| == |ds| == |ns| && DistinctTypes(ds)
    requires forall i :: 0 <= i < |ds| ==> resolved[i].ty == ds[i].ty && resolved[i].available == resolver(ds[i].ty)
    requires forall i :: 0 <= i < |ds| ==> (resolved[i].enabled <==> Survives(ns, i))
    ensures forall t :: t in features <==> exists n :: 0 <= n < |ds| && ds[n].ty == t
    ensures forall n :: 0 <= n < |ds| ==> features[ds[n].ty] == StatusOf(ds[n].ty, resolver, Survives(ns, n))
  {
    features := map[];
    for k := 0 to |resolved|
      invariant forall t :: t in features <==> exists n :: 0 <= n < k && ds[n].ty == t
      invariant forall n :: 0 <= n < k ==> features[ds[n].ty] == StatusOf(ds[n].ty, resolver, Survives(ns, n))
    {
      var c := resolved[k];
      features := features[c.ty := Status(c.available, c.enabled, c.IsActive())];
    }
  }

  ghost function StatusOf(t: string, resolver: string -> bool, enabled: bool): Status {
    Status(resolver(t), enabled, resolver(t) && enabled)
  }

  /** The cascade over two listings of one table agrees type by type. */
  lemma AnyListing(m: Table, ds: seq<Descriptor>, es: seq<Descriptor>, i: int, available: map<string, bool>,
                   prefs: Preferences)
    requires Lists(m, ds) && Lists(m, es) && DistinctTypes(ds) && DistinctTypes(es) && 0 <= i < |es|
    ensures exists k :: 0 <= k < |ds| && ds[k].ty == es[i].ty &&
              (Survives(Nodes(ds, available, prefs), k) <==> Survives(Nodes(es, available, prefs), i))
  {
    var ns, ms := Nodes(ds, available, prefs), Nodes(es, available, prefs);
    assert es[i] in es && es[i] in ds;
    var k :| 0 <= k < |ds| && ds[k] == es[i];
    forall n ensures n in ns <==> n in ms {
      if n in ns { SameNode(ds, es, available, prefs, n); }
      if n in ms { SameNode(es, ds, available, prefs, n); }
    }
    OrderIndependent(ns, ms, k, i);
  }

  lemma SameNode(ds: seq<Descriptor>, es: seq<Descriptor>, available: map<string, bool>, prefs: Preferences, n: Node)
    requires (forall d :: d in ds ==> d in es) && n in Nodes(ds, available, prefs)
    ensures n in Nodes(es, available, prefs)
  {
    var a :| 0 <= a < |ds| && Nodes(ds, available, prefs)[a] == n;
    assert ds[a] in ds && ds[a] in es;
    var b :| 0 <= b < |es| && es[b] == ds[a];
    assert Nodes(es, available, prefs)[b] == n;
  }

  /** UpdateCapabilityPreferences on one team's toggles: an unknown type rejects the
      whole update, otherwise every toggle is stored. */
  method UpdatePreferences(registry: Registry, stored: map<string, bool>, toggles: map<string, bool>)
    returns (ok: bool, after: map<string, bool>)
    requires registry.Valid()
    ensures ok <==> toggles.Keys <= registry.descriptors.Keys
    ensures after == if ok then stored + toggles else stored
  {
    var todo := toggles.Keys;
    while todo != {}
      invariant todo <= toggles.Keys && toggles.Keys - todo <= registry.descriptors.Keys
      decreases todo
    {
      var t :| t in todo;
      var d := registry.Get(t);
      if d.None? {
        return false, stored;
      }
      todo := todo - {t};
    }
    return true, stored + toggles;
  }
}
