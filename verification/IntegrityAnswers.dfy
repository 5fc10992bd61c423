// What each integrity message does, in the terms of the message: when it is accepted,
// what it writes, what it leaves alone, and what the readers show afterwards.
module IntegrityAnswers {
  import opened Wrappers
  import opened Integrity
  import opened IntegrityRuns

  // ---------------------------------------------------------------- yes and no

  predicate SameLetter(a: char, lower: char) {
    a == lower || ('A' <= a <= 'Z' && 'a' <= lower <= 'z' && a as int + 32 == lower as int)
  }

  // The word in any case.
  predicate Spells(s: string, word: string) {
    |s| == |word| && forall i :: 0 <= i < |s| ==> SameLetter(s[i], word[i])
  }

  predicate SaysYes(v: Value) {
    v == Flag(true) || v == Amount(1.0) ||
    (v.Text? && (Spells(v.s, "1") || Spells(v.s, "true") || Spells(v.s, "yes")))
  }

  predicate SaysNo(v: Value) {
    v == Flag(false) || v == Amount(0.0) ||
    (v.Text? && (Spells(v.s, "0") || Spells(v.s, "false") || Spells(v.s, "no")))
  }

  lemma {:induction false} LowerSpells(s: string, word: string)
    requires forall i :: 0 <= i < |word| ==> !('A' <= word[i] <= 'Z')
    ensures Lower(s) == word <==> Spells(s, word)
  {
    if Lower(s) == word {
      forall i | 0 <= i < |s| ensures SameLetter(s[i], word[i]) { assert Lower(s)[i] == word[i]; }
    }
    if Spells(s, word) {
      forall i | 0 <= i < |s| ensures Lower(s)[i] == word[i] { assert SameLetter(s[i], word[i]); }
      assert Lower(s) == word;
    }
  }

  lemma BoolExact(v: Value)
    ensures ParseBool(v) == Some(true) <==> SaysYes(v)
    ensures ParseBool(v) == Some(false) <==> SaysNo(v)
  {
    if v.Text? {
      LowerSpells(v.s, "1");
      LowerSpells(v.s, "true");
      LowerSpells(v.s, "yes");
      LowerSpells(v.s, "0");
      LowerSpells(v.s, "false");
      LowerSpells(v.s, "no");
    }
  }

  // ---------------------------------------------------------------- pausing

  predicate TokenUpTo(s: string, max: nat) { Token(s) && |s| <= max }

  predicate AgeOk(n: Number) { n.Absent? || (n.Number? && n.r > 0.0 && n.r == n.r.Floor as real) }

  // A pause is set exactly if it says yes or no and its other fields are in order.
  lemma PauseAcceptedExactly(s: State, m: PauseMsg, now: string)
    ensures Pause(s, m, now).1.PolicySet? <==>
      m.paused.Some? && (SaysYes(m.paused.value) || SaysNo(m.paused.value)) &&
      (m.reason.Some? ==> |m.reason.value| <= 512) && (m.policyHash.Some? ==> TokenUpTo(m.policyHash.value, 256)) &&
      AgeOk(m.maxAge)
    ensures !Pause(s, m, now).1.PolicySet? ==> Pause(s, m, now).1.Err?
  {
    if m.paused.Some? { BoolExact(m.paused.value); }
  }

  // It pauses on yes and resumes on no, at this time, by this role and for this
  // reason, writes the hash and the age it brings, and touches nothing else.
  lemma PauseDoesAsAsked(s: State, m: PauseMsg, now: string)
    requires Pause(s, m, now).1.PolicySet?
    ensures var t, p := Pause(s, m, now).0, Pause(s, m, now).1.policy;
      m.paused.Some? &&
      (SaysYes(m.paused.value) ==>
         p.paused && p.pausedAt == Some(now) &&
         p.pauseReason == Some(if m.reason.Some? then m.reason.value else "")) &&
      (SaysNo(m.paused.value) ==> !p.paused && p.pausedAt == None && p.pauseReason == None) &&
      p.pausedBy == m.actorRole && p.updatedAt == Some(now) &&
      p.activePolicyHash == (if m.policyHash.Some? then m.policyHash.value else s.policy.activePolicyHash) &&
      p.maxCheckInAgeSec == (if m.maxAge.Number? then m.maxAge.r else s.policy.maxCheckInAgeSec) &&
      p.activeRoot == s.policy.activeRoot && t.policy == p &&
      t.releases == s.releases && t.roots == s.roots && t.active == s.active && t.audit == s.audit
  {
    BoolExact(m.paused.value);
  }

  // And the readers show it: the same roots and release as before, under the new policy.
  lemma PauseIsShown(s: State, m: PauseMsg, now: string, component: Option<string>)
    requires Pause(s, m, now).1.PolicySet?
    ensures var t, p := Pause(s, m, now).0, Pause(s, m, now).1.policy;
      var before, after := TrustedRoot(s, component), TrustedRoot(t, component);
      (if before.Root? then after == before.(paused := p.paused, policyHash := p.activePolicyHash)
       else after == before) &&
      (if SnapshotOf(s).Snapshot? then SnapshotOf(t) == SnapshotOf(s).(policy := p) else SnapshotOf(t) == SnapshotOf(s))
  {
    PauseDoesAsAsked(s, m, now);
    var t := Pause(s, m, now).0;
    assert ActiveRelease(t, None) == ActiveRelease(s, None);
    var c := if component.Some? then component.value else "gateway";
    assert ActiveRelease(t, Some(c)) == ActiveRelease(s, Some(c));
  }

  // ---------------------------------------------------------------- publishing

  function ComponentOf(c: Option<string>): string { if c.Some? then c.value else "gateway" }

  predicate TimeOk(t: Option<string>, now: string) { IsoUtc(if t.Some? then t.value else now) }

  // All fields of a publication are there and in order.
  predicate Publishable(m: PublishMsg, now: string) {
    m.version.Some? && m.root.Some? && m.uriHash.Some? && m.metaHash.Some? &&
    TokenUpTo(ComponentOf(m.component), 96) && TokenUpTo(m.version.value, 128) && TokenUpTo(m.root.value, 256) &&
    TokenUpTo(m.uriHash.value, 256) && TokenUpTo(m.metaHash.value, 256) && TimeOk(m.publishedAt, now) &&
    (m.policyHash.Some? ==> TokenUpTo(m.policyHash.value, 256)) && AgeOk(m.maxAge) &&
    (m.activate.Some? ==> SaysYes(m.activate.value) || SaysNo(m.activate.value))
  }

  lemma PublishableExactly(m: PublishMsg, now: string)
    ensures Publishable(m, now) <==> PublishComplete(m) && PublishError(m, now).None?
  {
    if m.activate.Some? { BoolExact(m.activate.value); }
  }

  predicate SameThing(r: Release, m: PublishMsg) {
    m.root == Some(r.root) && m.uriHash == Some(r.uriHash) && m.metaHash == Some(r.metaHash)
  }

  // A publication is accepted, known already, in conflict over its version or over
  // its root, or faulty, and each exactly when this says.
  lemma PublishAnswersExactly(s: State, m: PublishMsg, now: string)
    ensures var reply := Publish(s, m, now).1;
      if !Publishable(m, now) then reply.Err? && reply.code == "INVALID_INPUT"
      else
        var key := ComponentOf(m.component) + "@" + m.version.value;
        if key in s.releases then
          reply == if SameThing(s.releases[key], m) then Already(s.releases[key]) else Err("VERSION_CONFLICT", key)
        else if m.root.value in s.roots && s.roots[m.root.value] != key then
          reply == Err("ROOT_CONFLICT", m.root.value)
        else reply.Published?
  {
    PublishableExactly(m, now);
  }

  // An accepted publication adds its release and root, and is activated exactly if it
  // does not say no; then its component and the policy point to it.
  lemma PublishDoesAsAsked(s: State, m: PublishMsg, now: string)
    requires Publish(s, m, now).1.Published?
    ensures Publishable(m, now)
    ensures var t, reply := Publish(s, m, now).0, Publish(s, m, now).1;
      var c, key := ComponentOf(m.component), ComponentOf(m.component) + "@" + m.version.value;
      reply.release == Release(c, m.version.value, m.root.value, m.uriHash.value, m.metaHash.value,
                               if m.publishedAt.Some? then m.publishedAt.value else now, None, "") &&
      reply.activated == (m.activate.None? || SaysYes(m.activate.value)) &&
      t.releases == s.releases[key := reply.release] && t.roots == s.roots[m.root.value := key] &&
      t.active == (if reply.activated then s.active[c := m.version.value] else s.active) &&
      t.audit == s.audit && reply.activeRoot == t.policy.activeRoot &&
      t.policy ==
        if reply.activated then
          s.policy.(activeRoot := m.root, updatedAt := Some(now),
                    activePolicyHash :=
                      if m.policyHash.Some? then m.policyHash.value else s.policy.activePolicyHash,
                    maxCheckInAgeSec := if m.maxAge.Number? then m.maxAge.r else s.policy.maxCheckInAgeSec)
        else s.policy
  {
    PublishableExactly(m, now);
    if m.activate.Some? { BoolExact(m.activate.value); }
    assert m.policyHash.Some? ==> m.policyHash.value != "";
  }

  // ---------------------------------------------------------------- revoking

  // The release that a revocation names: by its root if that is known, else by component and version.
  function Named(s: State, m: RevokeMsg): Option<string> {
    if m.root.Some? && m.root.value in s.roots then Some(s.roots[m.root.value])
    else if m.version.Some? then Some(ComponentOf(m.component) + "@" + m.version.value)
    else None
  }

  // Root and version both lead to a release, but not to the same one.
  predicate Contradicts(s: State, m: RevokeMsg) {
    m.root.Some? && m.version.Some? && m.root.value in s.roots &&
    s.roots[m.root.value] != ComponentOf(m.component) + "@" + m.version.value
  }

  predicate Revocable(s: State, m: RevokeMsg) {
    (m.version.Some? ==> |m.version.value| <= 128) && (m.root.Some? ==> |m.root.value| <= 256) &&
    (m.reason.Some? ==> |m.reason.value| <= 512) && !Contradicts(s, m) &&
    Named(s, m).Some? && Named(s, m).value in s.releases
  }

  // A revocation takes effect exactly if it names a release that is not revoked yet.
  lemma RevokeAnswersExactly(s: State, m: RevokeMsg, now: string)
    ensures var reply := Revoke(s, m, now).1;
      if !Revocable(s, m) then reply.Err?
      else if s.releases[Named(s, m).value].revokedAt.Some? then reply == Already(s.releases[Named(s, m).value])
      else reply.Revoked?
  {
  }

  // It marks that release, with time and reason, and pauses the policy exactly if
  // that is the active root; nothing else changes.
  lemma RevokeDoesAsAsked(s: State, m: RevokeMsg, now: string)
    requires Revoke(s, m, now).1.Revoked?
    ensures Revocable(s, m)
    ensures var t, reply, key := Revoke(s, m, now).0, Revoke(s, m, now).1, Named(s, m).value;
      var was := s.releases[key];
      reply.release == was.(revokedAt := Some(now), revokedReason := if m.reason.Some? then m.reason.value else "") &&
      t.releases == s.releases[key := reply.release] && t.roots == s.roots && t.active == s.active &&
      t.audit == s.audit && reply.paused == t.policy.paused &&
      t.policy ==
        if s.policy.activeRoot == Some(was.root) then
          s.policy.(paused := true, pauseReason := Some("active_root_revoked"), pausedBy := m.actorRole,
                    pausedAt := Some(now), updatedAt := Some(now))
        else s.policy
  {
    RevokeAnswersExactly(s, m, now);
  }

  // ---------------------------------------------------------------- appending

  predicate Whole(n: Number) { n.Number? && n.r > 0.0 && n.r == n.r.Floor as real }

  predicate AppendOk(a: Audit, m: AppendMsg, now: string) {
    Whole(m.seqFrom) && Whole(m.seqTo) && m.seqFrom.r <= m.seqTo.r && m.seqFrom.r > a.seqTo as real &&
    m.merkleRoot.Some? && TokenUpTo(m.merkleRoot.value, 256) && m.metaHash.Some? && TokenUpTo(m.metaHash.value, 256) &&
    m.reporterRef.Some? && TokenUpTo(m.reporterRef.value, 256) && TimeOk(m.acceptedAt, now)
  }

  lemma AppendExactly(s: State, m: AppendMsg, now: string)
    requires s.audit.seqTo >= 0
    ensures Append(s, m, now).1.Appended? <==> AppendOk(s.audit, m, now)
    ensures Append(s, m, now).1.Appended? || Append(s, m, now).1.Err?
  {
  }

  lemma AppendStores(s: State, m: AppendMsg, now: string)
    ensures var t, reply := Append(s, m, now).0, Append(s, m, now).1;
      if reply.Appended? then
        reply == Appended(t.audit) && t == s.(audit := t.audit) &&
        t.audit == Audit(m.seqFrom.r.Floor, m.seqTo.r.Floor, m.merkleRoot.value, m.metaHash.value,
                         m.reporterRef.value, if m.acceptedAt.Some? then m.acceptedAt.value else now)
      else t == s
  {
  }

  // In every reachable state a commitment is accepted exactly if its range is a
  // non-empty range of positive whole numbers beyond the stored one and its texts are
  // in order; then it is stored as it came and nothing else changes.
  lemma {:induction false} AppendDoesAsAsked(ops: seq<Op>, m: AppendMsg, now: string)
    ensures var s := After(Init, ops);
      var t, reply := Append(s, m, now).0, Append(s, m, now).1;
      if AppendOk(s.audit, m, now) then
        reply == Appended(t.audit) && t == s.(audit := t.audit) &&
        t.audit == Audit(m.seqFrom.r.Floor, m.seqTo.r.Floor, m.merkleRoot.value, m.metaHash.value,
                         m.reporterRef.value, if m.acceptedAt.Some? then m.acceptedAt.value else now)
      else reply.Err? && t == s
  {
    CommitmentsIncrease(ops);
    AppendExactly(After(Init, ops), m, now);
    AppendStores(After(Init, ops), m, now);
  }

  // ---------------------------------------------------------------- reading

  // Main result: over every run a component's trusted root is that of the release
  // last activated for it, whatever was activated for others since, and there is none
  // exactly if nothing was activated for it or that release is revoked by now.
  lemma {:induction false} TrustedRootIsLastActivated(ops: seq<Op>, component: Option<string>)
    requires TokenUpTo(ComponentOf(component), 96)
    ensures var s, c := After(Init, ops), ComponentOf(component);
      var last := LastFor(Activations(ops), Some(c));
      var reply := TrustedRoot(s, component);
      if last.None? then reply.NoRoot? && reply.code == "NOT_FOUND"
      else
        KeyOf(last.value) in s.releases &&
        if s.releases[KeyOf(last.value)].revokedAt.Some? then reply.NoRoot? && reply.code == "NOT_FOUND"
        else
          reply == Root(c, last.value.version, last.value.root, s.policy.paused, s.policy.activePolicyHash)
  {
    var s, c := After(Init, ops), ComponentOf(component);
    ActiveIsLastActivated(ops, Some(c));
    RunKeepsInv(ops);
    ActiveIsLocal(s, c);
    if LastFor(Activations(ops), Some(c)).Some? { LastIsFor(Activations(ops), c); }
  }

  lemma {:induction false} LastIsFor(log: seq<Release>, c: string)
    requires LastFor(log, Some(c)).Some?
    ensures LastFor(log, Some(c)).value.componentId == c
  {
    if log[|log| - 1].componentId != c { LastIsFor(log[..|log| - 1], c); }
  }

  // And the snapshot is that of the release last activated of all, with policy and audit as stored.
  lemma {:induction false} SnapshotIsLastActivated(ops: seq<Op>)
    ensures var s := After(Init, ops);
      var last, reply := LastFor(Activations(ops), None), SnapshotOf(s);
      if last.None? then reply.NoSnapshot? && reply.code == "NOT_FOUND"
      else
        KeyOf(last.value) in s.releases &&
        if s.releases[KeyOf(last.value)].revokedAt.Some? then reply.NoSnapshot? && reply.code == "NOT_FOUND"
        else
          reply == Snapshot(s.releases[KeyOf(last.value)], s.policy, s.audit) &&
          SamePublication(reply.release, last.value)
  {
    ActiveIsLastActivated(ops, None);
    RunKeepsInv(ops);
  }
}
