// What the integrity records keep over every run of the registry: the two indexes
// stay inverse, a publication never changes, a revocation is for ever, and the
// active release is the one last activated.
module IntegrityRuns {
  import opened Wrappers
  import opened Integrity

  datatype Op =
    | DoPublish(p: PublishMsg, now: string)
    | DoRevoke(r: RevokeMsg, now: string)
    | DoPause(q: PauseMsg, now: string)
    | DoAppend(a: AppendMsg, now: string)

  function Apply(s: State, op: Op): (State, Reply) {
    match op
    case DoPublish(p, now) => Publish(s, p, now)
    case DoRevoke(r, now) => Revoke(s, r, now)
    case DoPause(q, now) => Pause(s, q, now)
    case DoAppend(a, now) => Append(s, a, now)
  }

  function After(s: State, ops: seq<Op>): State
    decreases |ops|
  {
    if ops == [] then s else Apply(After(s, ops[..|ops| - 1]), ops[|ops| - 1]).0
  }

  // ---------------------------------------------------------------- the indexes

  predicate ReleasesOk(s: State) {
    forall k :: k in s.releases ==>
      k == KeyOf(s.releases[k]) && Token(s.releases[k].componentId) && Token(s.releases[k].version) &&
      s.releases[k].root in s.roots && s.roots[s.releases[k].root] == k
  }

  predicate RootsOk(s: State) {
    forall x :: x in s.roots ==> s.roots[x] in s.releases && s.releases[s.roots[x]].root == x
  }

  predicate ActiveOk(s: State) {
    (forall c :: c in s.active ==> Token(c) && ReleaseKey(c, s.active[c]) in s.releases &&
                                   s.releases[ReleaseKey(c, s.active[c])].componentId == c) &&
    (s.policy.activeRoot.None? ==> s.active == map[]) &&
    (s.policy.activeRoot.Some? ==>
       s.policy.activeRoot.value in s.roots && s.roots[s.policy.activeRoot.value] in s.releases &&
       var r := s.releases[s.roots[s.policy.activeRoot.value]];
       r.componentId in s.active && s.active[r.componentId] == r.version)
  }

  predicate Inv(s: State) { ReleasesOk(s) && RootsOk(s) && ActiveOk(s) }

  // Tokens hold no '@', so a release key determines component and version, even
  // against a component and version that were never validated.
  lemma {:induction false} ReleaseKeyExact(c: string, v: string, d: string, w: string)
    requires Token(c) && Token(v) && ReleaseKey(c, v) == ReleaseKey(d, w)
    ensures c == d && v == w
  {
    var a, b := ReleaseKey(c, v), ReleaseKey(d, w);
    assert a[|c|] == '@' && b[|d|] == '@';
    assert forall i :: 0 <= i < |c| ==> a[i] == c[i];
    assert forall i :: 0 <= i < |v| ==> a[|c| + 1 + i] == v[i];
    assert forall i :: 0 <= i < |a| && i != |c| ==> TokenChar(a[i]) by {
      assert forall i :: |c| < i < |a| ==> a[i] == v[i - |c| - 1];
    }
    assert a[..|c|] == c && b[..|d|] == d && a[|c| + 1..] == v && b[|d| + 1..] == w;
  }

  // ---------------------------------------------------------------- what an operation does

  // The effect of an operation on releases, roots, active versions and active root.
  datatype Effect = Nothing | Adds(r: Release, activates: bool) | Revokes(key: string, r: Release)

  function EffectOf(s: State, op: Op): Effect {
    match Apply(s, op).1
    case Published(r, on, activeRoot) => Adds(r, on)
    case Revoked(r, paused) => if op.DoRevoke? then Revokes(RevokedKey(s, op.r), r) else Nothing
    case _ => Nothing
  }

  function RevokedKey(s: State, m: RevokeMsg): string {
    if RootKey(s, m).Some? then RootKey(s, m).value else Or(VersionKey(m), "")
  }

  predicate Unmoved(s: State, t: State) {
    t.roots == s.roots && t.active == s.active && t.policy.activeRoot == s.policy.activeRoot
  }

  predicate Effects(s: State, t: State, e: Effect) {
    match e
    case Nothing => t.releases == s.releases && Unmoved(s, t)
    case Adds(r, on) =>
      KeyOf(r) !in s.releases && Token(r.componentId) && Token(r.version) && r.revokedAt.None? &&
      (r.root in s.roots ==> s.roots[r.root] == KeyOf(r)) &&
      t.releases == s.releases[KeyOf(r) := r] && t.roots == s.roots[r.root := KeyOf(r)] &&
      (if on then t.active == s.active[r.componentId := r.version] && t.policy.activeRoot == Some(r.root)
       else t.active == s.active && t.policy.activeRoot == s.policy.activeRoot)
    case Revokes(k, r) =>
      k in s.releases && s.releases[k].revokedAt.None? && r.revokedAt.Some? && SamePublication(s.releases[k], r) &&
      t.releases == s.releases[k := r] && Unmoved(s, t)
  }

  predicate SamePublication(a: Release, b: Release) {
    a.componentId == b.componentId && a.version == b.version && a.root == b.root && a.uriHash == b.uriHash &&
    a.metaHash == b.metaHash && a.publishedAt == b.publishedAt
  }

  lemma FieldsAreTokens(m: PublishMsg, now: string)
    requires PublishComplete(m) && PublishError(m, now).None?
    ensures Token(Or(m.component, "gateway")) && Token(m.version.value)
  {
  }

  lemma PublishEffect(s: State, m: PublishMsg, now: string)
    ensures Effects(s, Publish(s, m, now).0, EffectOf(s, DoPublish(m, now)))
  {
    if Publish(s, m, now).1.Published? { FieldsAreTokens(m, now); }
  }

  lemma RevokeEffect(s: State, m: RevokeMsg, now: string)
    ensures Effects(s, Revoke(s, m, now).0, EffectOf(s, DoRevoke(m, now)))
  {
  }

  lemma OpEffect(s: State, op: Op)
    ensures Effects(s, Apply(s, op).0, EffectOf(s, op))
  {
    match op
    case DoPublish(p, now) => PublishEffect(s, p, now);
    case DoRevoke(r, now) => RevokeEffect(s, r, now);
    case DoPause(q, now) =>
    case DoAppend(a, now) =>
  }

  // ---------------------------------------------------------------- the invariant

  lemma AddKeepsIndexes(s: State, t: State, r: Release, on: bool)
    requires Inv(s) && Effects(s, t, Adds(r, on))
    ensures ReleasesOk(t) && RootsOk(t)
  {
  }

  lemma AddKeepsActive(s: State, t: State, r: Release, on: bool)
    requires Inv(s) && Effects(s, t, Adds(r, on))
    ensures ActiveOk(t)
  {
  }

  lemma RevokeKeepsInv(s: State, t: State, k: string, r: Release)
    requires Inv(s) && Effects(s, t, Revokes(k, r))
    ensures Inv(t)
  {
    assert KeyOf(r) == KeyOf(s.releases[k]);
  }

  // Every effect keeps the indexes inverse to each other and the active release
  // in both of them.
  lemma EffectKeepsInv(s: State, t: State, e: Effect)
    requires Inv(s) && Effects(s, t, e)
    ensures Inv(t)
  {
    match e
    case Nothing =>
    case Adds(r, on) =>
      AddKeepsIndexes(s, t, r, on);
      AddKeepsActive(s, t, r, on);
    case Revokes(k, r) => RevokeKeepsInv(s, t, k, r);
  }

  lemma {:induction false} RunKeepsInv(ops: seq<Op>)
    ensures Inv(After(Init, ops))
    decreases |ops|
  {
    if ops != [] {
      RunKeepsInv(ops[..|ops| - 1]);
      var s, op := After(Init, ops[..|ops| - 1]), ops[|ops| - 1];
      OpEffect(s, op);
      EffectKeepsInv(s, After(Init, ops), EffectOf(s, op));
    }
  }

  // ---------------------------------------------------------------- what never changes

  predicate Preserves(s: State, t: State) {
    forall k :: k in s.releases ==>
      k in t.releases && SamePublication(s.releases[k], t.releases[k]) &&
      (s.releases[k].revokedAt.Some? ==> t.releases[k] == s.releases[k])
  }

  lemma EffectPreserves(s: State, t: State, e: Effect)
    requires Effects(s, t, e)
    ensures Preserves(s, t)
  {
  }

  lemma {:induction false} RunPreserves(s: State, more: seq<Op>)
    ensures Preserves(s, After(s, more))
    decreases |more|
  {
    if more != [] {
      RunPreserves(s, more[..|more| - 1]);
      var t, op := After(s, more[..|more| - 1]), more[|more| - 1];
      OpEffect(t, op);
      EffectPreserves(t, After(s, more), EffectOf(t, op));
      PreservesTwice(s, t, After(s, more));
    }
  }

  lemma PreservesTwice(s: State, t: State, u: State)
    requires Preserves(s, t) && Preserves(t, u)
    ensures Preserves(s, u)
  {
  }

  lemma {:induction false} AfterConcat(s: State, a: seq<Op>, b: seq<Op>)
    ensures After(s, a + b) == After(After(s, a), b)
    decreases |b|
  {
    if b == [] {
      assert a + b == a;
    } else {
      AfterConcat(s, a, b[..|b| - 1]);
      assert (a + b)[..|a + b| - 1] == a + b[..|b| - 1];
    }
  }

  // Main result: once a release is revoked, nothing that happens later brings its
  // root back: no publication, no resume, under no component.
  lemma {:induction false} RevocationIsPermanent(ops: seq<Op>, more: seq<Op>, k: string, component: Option<string>)
    requires k in After(Init, ops).releases && After(Init, ops).releases[k].revokedAt.Some?
    ensures var s, t := After(Init, ops), After(Init, ops + more);
      (TrustedRoot(t, component).Root? ==> TrustedRoot(t, component).root != s.releases[k].root) &&
      (SnapshotOf(t).Snapshot? ==> SnapshotOf(t).release.root != s.releases[k].root)
  {
    var s, t := After(Init, ops), After(Init, ops + more);
    AfterConcat(Init, ops, more);
    RunPreserves(s, more);
    assert k in t.releases && t.releases[k] == s.releases[k];
    RunKeepsInv(ops + more);
    RevokedIsNotRead(t, k, component);
  }

  lemma RevokedIsNotRead(t: State, k: string, component: Option<string>)
    requires Inv(t) && k in t.releases && t.releases[k].revokedAt.Some?
    ensures TrustedRoot(t, component).Root? ==> TrustedRoot(t, component).root != t.releases[k].root
    ensures SnapshotOf(t).Snapshot? ==> SnapshotOf(t).release.root != t.releases[k].root
  {
    NotServed(t, k, Some(Or(component, "gateway")));
    NotServed(t, k, None);
  }

  lemma NotServed(t: State, k: string, component: Option<string>)
    requires Inv(t) && k in t.releases && t.releases[k].revokedAt.Some?
    ensures var r := ActiveRelease(t, component);
      r.Some? && r.value.revokedAt.None? ==> r.value.root != t.releases[k].root
  {
  }

  // ---------------------------------------------------------------- the active release

  // The releases that a run activated, in order.
  function Activations(ops: seq<Op>): seq<Release>
    decreases |ops|
  {
    if ops == [] then []
    else
      var before := Activations(ops[..|ops| - 1]);
      var e := EffectOf(After(Init, ops[..|ops| - 1]), ops[|ops| - 1]);
      if e.Adds? && e.activates then before + [e.r] else before
  }

  // The last of them for a component, or the last of all.
  function LastFor(log: seq<Release>, component: Option<string>): Option<Release> {
    if log == [] then None
    else if component.None? || log[|log| - 1].componentId == component.value then Some(log[|log| - 1])
    else LastFor(log[..|log| - 1], component)
  }

  // As get_active_release would be without its fallback.
  predicate ActiveIs(s: State, component: Option<string>, last: Option<Release>) {
    var r := ActiveRelease(s, component);
    if last.None? then r.None? else r.Some? && SamePublication(r.value, last.value)
  }

  function ActiveFor(s: State, c: string): Option<Release> {
    if c in s.active && ReleaseKey(c, s.active[c]) in s.releases then Some(s.releases[ReleaseKey(c, s.active[c])])
    else None
  }

  lemma ActiveIsLocal(s: State, c: string)
    requires Inv(s)
    ensures ActiveRelease(s, Some(c)) == ActiveFor(s, c)
  {
  }

  // The fallback through the active root never changes the answer for a component.
  lemma {:induction false} FallbackIsIdle(ops: seq<Op>, c: string)
    ensures ActiveRelease(After(Init, ops), Some(c)) == ActiveFor(After(Init, ops), c)
  {
    RunKeepsInv(ops);
    ActiveIsLocal(After(Init, ops), c);
  }

  function Latest(e: Effect, component: Option<string>, last: Option<Release>): Option<Release> {
    if e.Adds? && e.activates && (component.None? || e.r.componentId == component.value) then Some(e.r) else last
  }

  lemma EffectOnActiveFor(s: State, t: State, e: Effect, c: string)
    requires Inv(s) && Effects(s, t, e)
    ensures var r, x := ActiveFor(s, c), ActiveFor(t, c);
      if e.Adds? && e.activates && e.r.componentId == c then x == Some(e.r)
      else if r.None? then x.None? else x.Some? && SamePublication(x.value, r.value)
  {
    if e.Adds? && e.activates && e.r.componentId == c { assert KeyOf(e.r) == ReleaseKey(c, e.r.version); }
  }

  lemma EffectOnComponent(s: State, t: State, e: Effect, c: string, last: Option<Release>)
    requires Inv(s) && Effects(s, t, e) && ActiveIs(s, Some(c), last)
    ensures ActiveIs(t, Some(c), Latest(e, Some(c), last))
  {
    EffectOnActiveFor(s, t, e, c);
    ActiveIsLocal(s, c);
    LocalAfter(s, t, e, c);
  }

  lemma LocalAfter(s: State, t: State, e: Effect, c: string)
    requires Inv(s) && Effects(s, t, e)
    ensures ActiveRelease(t, Some(c)) == ActiveFor(t, c)
  {
    EffectKeepsInv(s, t, e);
    ActiveIsLocal(t, c);
  }

  lemma EffectOnRoot(s: State, t: State, e: Effect, last: Option<Release>)
    requires Inv(s) && Effects(s, t, e) && ActiveIs(s, None, last)
    ensures ActiveIs(t, None, Latest(e, None, last))
  {
  }

  lemma EffectOnActive(s: State, t: State, e: Effect, component: Option<string>, last: Option<Release>)
    requires Inv(s) && Effects(s, t, e) && ActiveIs(s, component, last)
    ensures ActiveIs(t, component, Latest(e, component, last))
  {
    if component.Some? { EffectOnComponent(s, t, e, component.value, last); } else { EffectOnRoot(s, t, e, last); }
  }

  // Main result: the active release of a component is the one last activated for
  // it, and the active release as such is the one last activated of all.
  lemma {:induction false} ActiveIsLastActivated(ops: seq<Op>, component: Option<string>)
    ensures ActiveIs(After(Init, ops), component, LastFor(Activations(ops), component))
    decreases |ops|
  {
    if ops != [] {
      var before := ops[..|ops| - 1];
      var s, op := After(Init, before), ops[|ops| - 1];
      ActiveIsLastActivated(before, component);
      RunKeepsInv(before);
      OpEffect(s, op);
      EffectOnActive(s, After(Init, ops), EffectOf(s, op), component, LastFor(Activations(before), component));
      if EffectOf(s, op).Adds? { LastOfLonger(Activations(before), EffectOf(s, op), component); }
    }
  }

  function RootOf(r: Option<Release>): Option<string> { if r.Some? then Some(r.value.root) else None }

  lemma ActiveRootIsActive(s: State)
    requires Inv(s)
    ensures s.policy.activeRoot == RootOf(ActiveRelease(s, None))
  {
  }

  // ... and it is the release that the policy names: the active root is the root last activated.
  lemma {:induction false} ActiveRootIsLastActivated(ops: seq<Op>)
    ensures var s := After(Init, ops);
      s.policy.activeRoot == RootOf(ActiveRelease(s, None)) == RootOf(LastFor(Activations(ops), None))
  {
    RunKeepsInv(ops);
    ActiveRootIsActive(After(Init, ops));
    ActiveIsLastActivated(ops, None);
  }

  lemma {:induction false} LastOfLonger(log: seq<Release>, e: Effect, component: Option<string>)
    requires e.Adds?
    ensures LastFor(log + [e.r], component) ==
      if component.None? || e.r.componentId == component.value then Some(e.r) else LastFor(log, component)
  {
    assert (log + [e.r])[..|log|] == log;
  }

  lemma {:induction false} ActivationsAreReleases(ops: seq<Op>)
    ensures forall i :: 0 <= i < |Activations(ops)| ==> KeyOf(Activations(ops)[i]) in After(Init, ops).releases
    ensures forall i, j :: 0 <= i < j < |Activations(ops)| ==> KeyOf(Activations(ops)[i]) != KeyOf(Activations(ops)[j])
    decreases |ops|
  {
    if ops != [] {
      var before := ops[..|ops| - 1];
      var s, op := After(Init, before), ops[|ops| - 1];
      ActivationsAreReleases(before);
      OpEffect(s, op);
      EffectPreserves(s, After(Init, ops), EffectOf(s, op));
    }
  }

  // There is no way back: a release is activated once at most, when it is first
  // published, so an older release never becomes active again.
  lemma {:induction false} NeverActivatedTwice(ops: seq<Op>, i: nat, j: nat)
    requires i < j < |Activations(ops)|
    ensures KeyOf(Activations(ops)[i]) != KeyOf(Activations(ops)[j])
  {
    ActivationsAreReleases(ops);
  }

  // What a release was published as, it stays, whatever happens later.
  lemma {:induction false} PublicationsNeverChange(ops: seq<Op>, more: seq<Op>, k: string)
    requires k in After(Init, ops).releases
    ensures k in After(Init, ops + more).releases
    ensures SamePublication(After(Init, ops).releases[k], After(Init, ops + more).releases[k])
  {
    AfterConcat(Init, ops, more);
    RunPreserves(After(Init, ops), more);
  }

  // In every reachable state the two indexes are inverse to each other.
  lemma {:induction false} IndexesAreInverse(ops: seq<Op>, k: string, x: string)
    ensures var s := After(Init, ops);
      (k in s.releases && s.releases[k].root == x) <==> (x in s.roots && s.roots[x] == k)
  {
    RunKeepsInv(ops);
  }

  // ---------------------------------------------------------------- what readers see

  // An activating publication is what both readers return next, field by field.
  lemma PublishedIsServed(s: State, m: PublishMsg, now: string)
    requires Inv(s) && Publish(s, m, now).1.Published? && Publish(s, m, now).1.activated
    ensures PublishComplete(m)
    ensures var t, c := Publish(s, m, now).0, Or(m.component, "gateway");
      TrustedRoot(t, m.component) ==
      Root(c, m.version.value, m.root.value, s.policy.paused, Or(m.policyHash, s.policy.activePolicyHash)) &&
      SnapshotOf(t) == Snapshot(Release(c, m.version.value, m.root.value, m.uriHash.value, m.metaHash.value,
                                        Or(m.publishedAt, now), None, ""), t.policy, s.audit)
  {
    var t, r := Publish(s, m, now).0, Publish(s, m, now).1.release;
    FieldsAreServed(m, now);
    assert t.releases[KeyOf(r)] == r && t.roots[r.root] == KeyOf(r) && t.active[r.componentId] == r.version;
  }

  lemma FieldsAreServed(m: PublishMsg, now: string)
    requires PublishComplete(m) && PublishError(m, now).None?
    ensures TokenError(Or(m.component, "gateway"), "Component-Id", 96).None?
    ensures m.policyHash.Some? ==> m.policyHash.value != ""
  {
  }

  // A release that the records hold as revoked.
  predicate HeldRevoked(t: State, r: Release) {
    KeyOf(r) in t.releases && t.releases[KeyOf(r)] == r && r.revokedAt.Some?
  }

  lemma RevokedIsHeld(s: State, m: RevokeMsg, now: string)
    requires Inv(s) && Revoke(s, m, now).1.Revoked?
    ensures var t, r := Revoke(s, m, now).0, Revoke(s, m, now).1.release;
      Inv(t) && HeldRevoked(t, r) && t.active == s.active && t.policy.activeRoot == s.policy.activeRoot
  {
    var t, r, k := Revoke(s, m, now).0, Revoke(s, m, now).1.release, RevokedKey(s, m);
    RevokeEffect(s, m, now);
    EffectKeepsInv(s, t, Revokes(k, r));
    assert k == KeyOf(r);
  }

  lemma HeldRevokedHasNoRoot(t: State, r: Release)
    requires Inv(t) && HeldRevoked(t, r) && r.componentId in t.active && t.active[r.componentId] == r.version
    ensures TrustedRoot(t, Some(r.componentId)).NoRoot?
  {
    ActiveIsLocal(t, r.componentId);
  }

  lemma HeldRevokedHasNoSnapshot(t: State, r: Release)
    requires Inv(t) && HeldRevoked(t, r) && t.policy.activeRoot == Some(r.root)
    ensures SnapshotOf(t).NoSnapshot?
  {
  }

  // Revoking the release that a component has active takes its root away at once,
  // and pauses the policy if it is the active root.
  lemma RevokedIsServedNoMore(s: State, m: RevokeMsg, now: string)
    requires Inv(s) && Revoke(s, m, now).1.Revoked?
    ensures var t, r := Revoke(s, m, now).0, Revoke(s, m, now).1.release;
      (r.componentId in s.active && s.active[r.componentId] == r.version ==>
         TrustedRoot(t, Some(r.componentId)).NoRoot?) &&
      (s.policy.activeRoot == Some(r.root) ==> t.policy.paused && SnapshotOf(t).NoSnapshot?)
  {
    var t, r := Revoke(s, m, now).0, Revoke(s, m, now).1.release;
    RevokedIsHeld(s, m, now);
    if r.componentId in s.active && s.active[r.componentId] == r.version { HeldRevokedHasNoRoot(t, r); }
    if s.policy.activeRoot == Some(r.root) { HeldRevokedHasNoSnapshot(t, r); }
  }

  // The policy is paused exactly while it has a time and a reason for it, and its
  // age limit stays a positive integer.
  predicate PolicyOk(p: Policy) {
    p.paused == p.pausedAt.Some? == p.pauseReason.Some? && PositiveInteger(p.maxCheckInAgeSec)
  }

  // The active root is not revoked unless the policy is paused.
  predicate Guarded(s: State) {
    (s.policy.activeRoot.Some? && s.policy.activeRoot.value in s.roots &&
        s.roots[s.policy.activeRoot.value] in s.releases &&
     s.releases[s.roots[s.policy.activeRoot.value]].revokedAt.Some?) ==> s.policy.paused
  }

  lemma AgeIsPositive(m: PublishMsg, now: string)
    requires PublishComplete(m) && PublishError(m, now).None? && m.maxAge.Number?
    ensures PositiveInteger(m.maxAge.r)
  {
  }

  lemma PublishKeepsPolicy(s: State, m: PublishMsg, now: string)
    requires PolicyOk(s.policy)
    ensures PolicyOk(Publish(s, m, now).0.policy)
  {
    if Publish(s, m, now).1.Published? && m.maxAge.Number? { AgeIsPositive(m, now); }
  }

  lemma PauseKeepsPolicy(s: State, m: PauseMsg, now: string)
    requires PolicyOk(s.policy)
    ensures PolicyOk(Pause(s, m, now).0.policy)
  {
  }

  lemma OpKeepsPolicy(s: State, op: Op)
    requires PolicyOk(s.policy)
    ensures PolicyOk(Apply(s, op).0.policy)
  {
    match op
    case DoPublish(p, now) => PublishKeepsPolicy(s, p, now);
    case DoRevoke(r, now) =>
    case DoPause(q, now) => PauseKeepsPolicy(s, q, now);
    case DoAppend(a, now) =>
  }

  lemma {:induction false} RunKeepsPolicy(ops: seq<Op>)
    ensures PolicyOk(After(Init, ops).policy)
    decreases |ops|
  {
    if ops != [] {
      RunKeepsPolicy(ops[..|ops| - 1]);
      OpKeepsPolicy(After(Init, ops[..|ops| - 1]), ops[|ops| - 1]);
    } else {
      assert PositiveInteger(3600.0);
    }
  }

  lemma OpKeepsGuard(s: State, op: Op)
    requires Inv(s) && Guarded(s) && !op.DoPause?
    ensures Guarded(Apply(s, op).0)
  {
    if op.DoPublish? { PublishKeepsGuard(s, op.p, op.now); }
    if op.DoRevoke? { RevokeKeepsGuard(s, op.r, op.now); }
  }

  lemma PublishKeepsGuard(s: State, m: PublishMsg, now: string)
    requires Inv(s) && Guarded(s)
    ensures Guarded(Publish(s, m, now).0)
  {
  }

  lemma RevokeKeepsGuard(s: State, m: RevokeMsg, now: string)
    requires Inv(s) && Guarded(s)
    ensures Guarded(Revoke(s, m, now).0)
  {
  }

  // Unless someone resumes it, the policy is paused for as long as the active root
  // is a revoked one; only SetIntegrityPolicyPause can undo that.
  lemma {:induction false} RevokedActiveIsPaused(ops: seq<Op>)
    requires forall i :: 0 <= i < |ops| ==> !ops[i].DoPause?
    ensures Guarded(After(Init, ops))
    decreases |ops|
  {
    if ops != [] {
      RevokedActiveIsPaused(ops[..|ops| - 1]);
      RunKeepsInv(ops[..|ops| - 1]);
      OpKeepsGuard(After(Init, ops[..|ops| - 1]), ops[|ops| - 1]);
    }
  }

  // ---------------------------------------------------------------- errors

  // Publishing, revoking and appending change nothing when they answer an error;
  // publishing what is there already changes nothing either.
  lemma ErrorsChangeNothing(s: State, op: Op)
    requires !op.DoPause? && (Apply(s, op).1.Err? || Apply(s, op).1.Already?)
    ensures Apply(s, op).0 == s
  {
  }

  // Pausing is the exception: it has stored a new policy hash already when it
  // finds the age at fault, and exactly then an error leaves a trace.
  lemma PauseErrorLeavesTrace(s: State, m: PauseMsg, now: string)
    requires Pause(s, m, now).1.Err?
    ensures Pause(s, m, now).0 != s <==>
      m.paused.Some? && ParseBool(m.paused.value).Some? && |Or(m.reason, "")| <= 512 && AgeError(m.maxAge).Some? &&
      m.policyHash.Some? && TokenError(m.policyHash.value, "Policy-Hash", 256).None? &&
      m.policyHash.value != s.policy.activePolicyHash
  {
  }

  // ---------------------------------------------------------------- audit commitments

  // The commitments that a run accepted, in order.
  function Commitments(ops: seq<Op>): seq<Audit>
    decreases |ops|
  {
    if ops == [] then []
    else
      var before := Commitments(ops[..|ops| - 1]);
      var reply := Apply(After(Init, ops[..|ops| - 1]), ops[|ops| - 1]).1;
      if reply.Appended? then before + [reply.audit] else before
  }

  ghost predicate Disjoint(log: seq<Audit>) {
    (forall i :: 0 <= i < |log| ==> 1 <= log[i].seqFrom <= log[i].seqTo) &&
    forall i, j :: 0 <= i < j < |log| ==> log[i].seqTo < log[j].seqFrom
  }

  lemma AppendAfter(s: State, op: Op)
    ensures var t, reply := Apply(s, op).0, Apply(s, op).1;
      if reply.Appended? then Extends(s.audit, reply.audit) && t.audit == reply.audit else t.audit == s.audit
  {
  }

  // A non-empty range beyond the one before.
  predicate Extends(a: Audit, b: Audit) { 1 <= b.seqFrom <= b.seqTo && (a.seqTo > 0 ==> a.seqTo < b.seqFrom) }

  function LastOf(log: seq<Audit>): Audit { if log == [] then Init.audit else log[|log| - 1] }

  lemma {:induction false} DisjointLonger(log: seq<Audit>, a: Audit)
    requires Disjoint(log) && Extends(LastOf(log), a)
    ensures Disjoint(log + [a]) && LastOf(log + [a]) == a
  {
  }

  // What the last operation of a run adds to the commitments, if anything.
  lemma {:induction false} CommitmentsOne(ops: seq<Op>) returns (a: Option<Audit>)
    requires ops != []
    ensures var before := ops[..|ops| - 1];
      if a.None? then
        Commitments(ops) == Commitments(before) && After(Init, ops).audit == After(Init, before).audit
      else
        Commitments(ops) == Commitments(before) + [a.value] && After(Init, ops).audit == a.value &&
        Extends(After(Init, before).audit, a.value)
  {
    var s, op := After(Init, ops[..|ops| - 1]), ops[|ops| - 1];
    AppendAfter(s, op);
    a := if Apply(s, op).1.Appended? then Some(Apply(s, op).1.audit) else None;
  }

  // Main result: over any run the accepted commitments are non-empty ranges, each
  // beyond all before it, and the stored state is the last of them.
  lemma {:induction false} CommitmentsIncrease(ops: seq<Op>)
    ensures Disjoint(Commitments(ops)) && After(Init, ops).audit == LastOf(Commitments(ops))
    decreases |ops|
  {
    if ops != [] {
      var before := ops[..|ops| - 1];
      CommitmentsIncrease(before);
      var a := CommitmentsOne(ops);
      if a.Some? { DisjointLonger(Commitments(before), a.value); }
    }
  }
}
