// The registry's integrity records: published releases, their roots, which of them
// are active, the policy around them and the audit commitments.
module Integrity {
  import opened Wrappers

  // ---------------------------------------------------------------- fields of messages

  // A field of a message as it arrives: a boolean, a number or text.
  datatype Value = Flag(b: bool) | Amount(r: real) | Text(s: string)

  // What tonumber makes of a field.
  datatype Number = Absent | NotANumber | Number(r: real)

  predicate TokenChar(c: char) {
    'a' <= c <= 'z' || 'A' <= c <= 'Z' || '0' <= c <= '9' || c == '-' || c == '.' || c == '_'
  }

  predicate Token(s: string) { s != "" && forall i :: 0 <= i < |s| ==> TokenChar(s[i]) }

  // validate_token_field: the error for a field, if any.
  function TokenError(value: string, field: string, max: nat): Option<string> {
    if |value| > max then Some("too_long:" + field)
    else if !Token(value) then Some("invalid_format:" + field)
    else None
  }

  function LengthError(value: string, field: string, max: nat): Option<string> {
    if |value| > max then Some("too_long:" + field) else None
  }

  predicate Digit(c: char) { '0' <= c <= '9' }

  // yyyy-mm-ddThh:mm:ssZ
  predicate IsoUtc(s: string) {
    |s| == 20 && s[4] == '-' && s[7] == '-' && s[10] == 'T' && s[13] == ':' && s[16] == ':' && s[19] == 'Z' &&
    forall i :: i in {0, 1, 2, 3, 5, 6, 8, 9, 11, 12, 14, 15, 17, 18} ==> Digit(s[i])
  }

  function TimeError(value: string, field: string): Option<string> {
    if |value| > 64 then Some("too_long:" + field)
    else if !IsoUtc(value) then Some("invalid_format:" + field)
    else None
  }

  predicate PositiveInteger(r: real) { r > 0.0 && r == r.Floor as real }

  // An optional number that has to be a positive integer.
  function AgeError(n: Number): Option<string> {
    if n.Absent? || (n.Number? && PositiveInteger(n.r)) then None else Some("invalid_number:Max-CheckIn-Age-Sec")
  }

  function Lower(s: string): string {
    seq(|s|, i requires 0 <= i < |s| => if 'A' <= s[i] <= 'Z' then (s[i] as int + 32) as char else s[i])
  }

  function ParseBool(v: Value): Option<bool> {
    match v
    case Flag(b) => Some(b)
    case Amount(r) => if r == 1.0 then Some(true) else if r == 0.0 then Some(false) else None
    case Text(s) =>
      if Lower(s) in {"1", "true", "yes"} then Some(true)
      else if Lower(s) in {"0", "false", "no"} then Some(false) else None
  }

  // ---------------------------------------------------------------- state

  datatype Release = Release(componentId: string, version: string, root: string, uriHash: string, metaHash: string,
                             publishedAt: string, revokedAt: Option<string>, revokedReason: string)

  datatype Policy = Policy(activeRoot: Option<string>, activePolicyHash: string, paused: bool, maxCheckInAgeSec: real,
                           updatedAt: Option<string>, pausedAt: Option<string>, pausedBy: Option<string>,
                           pauseReason: Option<string>)

  datatype Audit = Audit(seqFrom: int, seqTo: int, merkleRoot: string, metaHash: string, reporterRef: string,
                         acceptedAt: string)

  datatype State = State(releases: map<string, Release>, roots: map<string, string>, active: map<string, string>,
                         policy: Policy, audit: Audit)

  const Init := State(map[], map[], map[], Policy(None, "policy-unset", false, 3600.0, None, None, None, None),
                      Audit(0, 0, "audit-root-unset", "audit-meta-unset", "authority-reporter-unset",
                            "1970-01-01T00:00:00Z"))

  function ReleaseKey(component: string, version: string): string { component + "@" + version }

  datatype Reply =
    | Err(code: string, detail: string)
    | Already(release: Release)
    | Published(release: Release, activated: bool, activeRoot: Option<string>)
    | Revoked(release: Release, paused: bool)
    | PolicySet(policy: Policy)
    | Appended(audit: Audit)

  function ActiveRelease(s: State, component: Option<string>): Option<Release> {
    if component.Some? && component.value in s.active &&
       ReleaseKey(component.value, s.active[component.value]) in s.releases
    then Some(s.releases[ReleaseKey(component.value, s.active[component.value])])
    else if s.policy.activeRoot.None? || s.policy.activeRoot.value !in s.roots ||
            s.roots[s.policy.activeRoot.value] !in s.releases then None
    else
      var release := s.releases[s.roots[s.policy.activeRoot.value]];
      if component.Some? && release.componentId != component.value then None else Some(release)
  }

  // ---------------------------------------------------------------- publishing

  datatype PublishMsg = PublishMsg(component: Option<string>, version: Option<string>, root: Option<string>,
                                   uriHash: Option<string>, metaHash: Option<string>, publishedAt: Option<string>,
                                   activate: Option<Value>, policyHash: Option<string>, maxAge: Number)

  function Or<T>(o: Option<T>, d: T): T { if o.Some? then o.value else d }

  predicate PublishComplete(m: PublishMsg) {
    m.version.Some? && m.root.Some? && m.uriHash.Some? && m.metaHash.Some?
  }

  function First(a: Option<string>, b: Option<string>): Option<string> { if a.Some? then a else b }

  // The first thing wrong with the fields of a publication, if anything.
  function PublishError(m: PublishMsg, now: string): Option<string>
    requires PublishComplete(m)
  {
    First(TokenError(Or(m.component, "gateway"), "Component-Id", 96),
    First(TokenError(m.version.value, "Version", 128),
    First(TokenError(m.root.value, "Root", 256),
    First(TokenError(m.uriHash.value, "Uri-Hash", 256),
    First(TokenError(m.metaHash.value, "Meta-Hash", 256),
    First(TimeError(Or(m.publishedAt, now), "Published-At"),
    First(if m.policyHash.Some? then TokenError(m.policyHash.value, "Policy-Hash", 256) else None,
    First(AgeError(m.maxAge),
    if ParseBool(Or(m.activate, Flag(true))).None? then Some("invalid_boolean:Activate") else None))))))))
  }

  function NewRelease(m: PublishMsg, now: string): Release
    requires PublishComplete(m)
  {
    Release(Or(m.component, "gateway"), m.version.value, m.root.value, m.uriHash.value, m.metaHash.value,
            Or(m.publishedAt, now), None, "")
  }

  function KeyOf(r: Release): string { ReleaseKey(r.componentId, r.version) }

  predicate SameData(a: Release, b: Release) { a.root == b.root && a.uriHash == b.uriHash && a.metaHash == b.metaHash }

  function Activated(p: Policy, m: PublishMsg, root: string, now: string): Policy {
    p.(activeRoot := Some(root),
       activePolicyHash :=
         if m.policyHash.Some? && m.policyHash.value != "" then m.policyHash.value else p.activePolicyHash,
       maxCheckInAgeSec := if m.maxAge.Number? then m.maxAge.r else p.maxCheckInAgeSec,
       updatedAt := Some(now))
  }

  function Publish(s: State, m: PublishMsg, now: string): (State, Reply) {
    if !PublishComplete(m) then (s, Err("INVALID_INPUT", "Missing required field"))
    else if PublishError(m, now).Some? then (s, Err("INVALID_INPUT", PublishError(m, now).value))
    else
      var r := NewRelease(m, now);
      if KeyOf(r) in s.releases then
        if SameData(s.releases[KeyOf(r)], r) then (s, Already(s.releases[KeyOf(r)]))
        else (s, Err("VERSION_CONFLICT", KeyOf(r)))
      else if r.root in s.roots && s.roots[r.root] != KeyOf(r) then (s, Err("ROOT_CONFLICT", r.root))
      else
        var on := ParseBool(Or(m.activate, Flag(true))).value;
        var t := s.(releases := s.releases[KeyOf(r) := r], roots := s.roots[r.root := KeyOf(r)]);
        var u :=
          if on then
            t.(active := s.active[r.componentId := r.version], policy := Activated(s.policy, m, r.root, now))
          else t;
        (u, Published(r, on, u.policy.activeRoot))
  }

  // ---------------------------------------------------------------- revoking

  datatype RevokeMsg = RevokeMsg(component: Option<string>, version: Option<string>, root: Option<string>,
                                 reason: Option<string>, actorRole: Option<string>)

  // The release that a revocation names; component and version are not validated.
  function VersionKey(m: RevokeMsg): Option<string> {
    if m.version.Some? then Some(ReleaseKey(Or(m.component, "gateway"), m.version.value)) else None
  }

  function RootKey(s: State, m: RevokeMsg): Option<string> {
    if m.root.Some? && m.root.value in s.roots then Some(s.roots[m.root.value]) else None
  }

  function PausedByRevocation(p: Policy, actorRole: Option<string>, now: string): Policy {
    p.(paused := true, pauseReason := Some("active_root_revoked"), pausedBy := actorRole, pausedAt := Some(now),
       updatedAt := Some(now))
  }

  function Revoke(s: State, m: RevokeMsg, now: string): (State, Reply) {
    var byVersion, byRoot := VersionKey(m), RootKey(s, m);
    var key := if byRoot.Some? then byRoot else byVersion;
    if m.root.None? && m.version.None? then (s, Err("INVALID_INPUT", "Root or Version is required"))
    else if m.version.Some? && LengthError(m.version.value, "Version", 128).Some? then
      (s, Err("INVALID_INPUT", "too_long:Version"))
    else if m.root.Some? && LengthError(m.root.value, "Root", 256).Some? then (s, Err("INVALID_INPUT", "too_long:Root"))
    else if byVersion.Some? && byRoot.Some? && byVersion != byRoot then
      (s, Err("INVALID_INPUT", "Root and Version point to different releases"))
    else if key.None? || key.value !in s.releases then (s, Err("NOT_FOUND", "Trusted release not found"))
    else if LengthError(Or(m.reason, ""), "Reason", 512).Some? then (s, Err("INVALID_INPUT", "too_long:Reason"))
    else if s.releases[key.value].revokedAt.Some? then (s, Already(s.releases[key.value]))
    else
      var r := s.releases[key.value].(revokedAt := Some(now), revokedReason := Or(m.reason, ""));
      var p := if s.policy.activeRoot == Some(r.root) then PausedByRevocation(s.policy, m.actorRole, now) else s.policy;
      (s.(releases := s.releases[key.value := r], policy := p), Revoked(r, p.paused))
  }

  // ---------------------------------------------------------------- pausing

  datatype PauseMsg = PauseMsg(paused: Option<Value>, reason: Option<string>, policyHash: Option<string>,
      maxAge: Number,
                               actorRole: Option<string>)

  // The policy hash is written before the age is checked.
  function Pause(s: State, m: PauseMsg, now: string): (State, Reply) {
    if m.paused.None? then (s, Err("INVALID_INPUT", "Missing required field"))
    else if ParseBool(m.paused.value).None? then (s, Err("INVALID_INPUT", "invalid_boolean:Paused"))
    else if LengthError(Or(m.reason, ""), "Reason", 512).Some? then (s, Err("INVALID_INPUT", "too_long:Reason"))
    else if m.policyHash.Some? && TokenError(m.policyHash.value, "Policy-Hash", 256).Some? then
      (s, Err("INVALID_INPUT", TokenError(m.policyHash.value, "Policy-Hash", 256).value))
    else
      var p := if m.policyHash.Some? then s.policy.(activePolicyHash := m.policyHash.value) else s.policy;
      if AgeError(m.maxAge).Some? then (s.(policy := p), Err("INVALID_INPUT", AgeError(m.maxAge).value))
      else
        var on := ParseBool(m.paused.value).value;
        var q := p.(maxCheckInAgeSec := if m.maxAge.Number? then m.maxAge.r else p.maxCheckInAgeSec,
                    paused := on, updatedAt := Some(now), pausedBy := m.actorRole,
                    pausedAt := if on then Some(now) else None,
                    pauseReason := if on then Some(Or(m.reason, "")) else None);
        (s.(policy := q), PolicySet(q))
  }

  // ---------------------------------------------------------------- audit commitments

  datatype AppendMsg = AppendMsg(seqFrom: Number, seqTo: Number, merkleRoot: Option<string>, metaHash: Option<string>,
                                 reporterRef: Option<string>, acceptedAt: Option<string>)

  predicate AppendComplete(m: AppendMsg) {
    !m.seqFrom.Absent? && !m.seqTo.Absent? && m.merkleRoot.Some? && m.metaHash.Some? && m.reporterRef.Some?
  }

  function Append(s: State, m: AppendMsg, now: string): (State, Reply) {
    if !AppendComplete(m) then (s, Err("INVALID_INPUT", "Missing required field"))
    else if !m.seqFrom.Number? || !PositiveInteger(m.seqFrom.r) then
      (s, Err("INVALID_INPUT", "invalid_number:Seq-From"))
    else if !m.seqTo.Number? || !PositiveInteger(m.seqTo.r) then (s, Err("INVALID_INPUT", "invalid_number:Seq-To"))
    else if m.seqTo.r < m.seqFrom.r then (s, Err("INVALID_INPUT", "Invalid audit sequence range"))
    else if s.audit.seqTo > 0 && m.seqFrom.r.Floor <= s.audit.seqTo then
      (s, Err("VERSION_CONFLICT", "Audit sequence overlaps existing range"))
    else
      var bad := First(TokenError(m.merkleRoot.value, "Merkle-Root", 256),
                 First(TokenError(m.metaHash.value, "Meta-Hash", 256),
                 First(TokenError(m.reporterRef.value, "Reporter-Ref", 256),
                       TimeError(Or(m.acceptedAt, now), "Accepted-At"))));
      if bad.Some? then (s, Err("INVALID_INPUT", bad.value))
      else
        var a := Audit(m.seqFrom.r.Floor, m.seqTo.r.Floor, m.merkleRoot.value, m.metaHash.value, m.reporterRef.value,
                       Or(m.acceptedAt, now));
        (s.(audit := a), Appended(a))
  }

  // ---------------------------------------------------------------- reading

  datatype RootReply =
    | NoRoot(code: string, detail: string)
    | Root(componentId: string, version: string, root: string, paused: bool, policyHash: string)

  function TrustedRoot(s: State, component: Option<string>): RootReply {
    var c := Or(component, "gateway");
    if TokenError(c, "Component-Id", 96).Some? then NoRoot("INVALID_INPUT", TokenError(c, "Component-Id", 96).value)
    else
      var r := ActiveRelease(s, Some(c));
      if r.None? then NoRoot("NOT_FOUND", "Active trusted root is not set")
      else if r.value.revokedAt.Some? then NoRoot("NOT_FOUND", "Active trusted root is revoked")
      else Root(r.value.componentId, r.value.version, r.value.root, s.policy.paused, s.policy.activePolicyHash)
  }

  datatype SnapshotReply =
    | NoSnapshot(code: string, detail: string)
    | Snapshot(release: Release, policy: Policy, audit: Audit)

  function SnapshotOf(s: State): SnapshotReply {
    var r := ActiveRelease(s, None);
    if r.None? then NoSnapshot("NOT_FOUND", "Active trusted release is not set")
    else if r.value.revokedAt.Some? then NoSnapshot("NOT_FOUND", "Active trusted release is revoked")
    else Snapshot(r.value, s.policy, s.audit)
  }

  // ---------------------------------------------------------------- the handlers

  class Handlers {
    var releases: map<string, Release>
    var roots: map<string, string>
    var active: map<string, string>
    var policy: Policy
    var audit: Audit

    ghost function Now(): State reads this { State(releases, roots, active, policy, audit) }

    constructor ()
      ensures Now() == Init
    {
      releases, roots, active, policy, audit := map[], map[], map[], Init.policy, Init.audit;
    }

    method GetActiveRelease(component: Option<string>) returns (r: Option<Release>)
      ensures r == ActiveRelease(Now(), component)
    {
      if component.Some? && component.value in active {
        var key := ReleaseKey(component.value, active[component.value]);
        if key in releases { return Some(releases[key]); }
      }
      if policy.activeRoot.None? || policy.activeRoot.value !in roots { return None; }
      var key := roots[policy.activeRoot.value];
      if key !in releases { return None; }
      if component.Some? && releases[key].componentId != component.value { return None; }
      r := Some(releases[key]);
    }

    method PublishTrustedRelease(m: PublishMsg, now: string) returns (reply: Reply)
      modifies this
      ensures (Now(), reply) == Publish(old(Now()), m, now)
    {
      if !PublishComplete(m) { return Err("INVALID_INPUT", "Missing required field"); }
      var bad := PublishError(m, now);
      if bad.Some? { return Err("INVALID_INPUT", bad.value); }
      var activate := ParseBool(Or(m.activate, Flag(true))).value;
      var release := NewRelease(m, now);
      var key := ReleaseKey(release.componentId, release.version);
      if key in releases {
        var existing := releases[key];
        if !SameData(existing, release) {
          return Err("VERSION_CONFLICT", key);
        }
        return Already(existing);
      }
      if release.root in roots && roots[release.root] != key { return Err("ROOT_CONFLICT", release.root); }
      releases := releases[key := release];
      roots := roots[release.root := key];
      if activate {
        active := active[release.componentId := release.version];
        policy := policy.(activeRoot := Some(release.root));
        if m.policyHash.Some? && m.policyHash.value != "" { policy := policy.(activePolicyHash := m.policyHash.value); }
        if m.maxAge.Number? { policy := policy.(maxCheckInAgeSec := m.maxAge.r); }
        policy := policy.(updatedAt := Some(now));
      }
      reply := Published(release, activate, policy.activeRoot);
    }

    method RevokeTrustedRelease(m: RevokeMsg, now: string) returns (reply: Reply)
      modifies this
      ensures (Now(), reply) == Revoke(old(Now()), m, now)
    {
      if m.root.None? && m.version.None? { return Err("INVALID_INPUT", "Root or Version is required"); }
      var keyFromVersion: Option<string> := None;
      if m.version.Some? {
        if |m.version.value| > 128 { return Err("INVALID_INPUT", "too_long:Version"); }
        keyFromVersion := Some(ReleaseKey(Or(m.component, "gateway"), m.version.value));
      }
      var keyFromRoot: Option<string> := None;
      if m.root.Some? {
        if |m.root.value| > 256 { return Err("INVALID_INPUT", "too_long:Root"); }
        if m.root.value in roots { keyFromRoot := Some(roots[m.root.value]); }
      }
      if keyFromVersion.Some? && keyFromRoot.Some? && keyFromVersion != keyFromRoot {
        return Err("INVALID_INPUT", "Root and Version point to different releases");
      }
      var key := if keyFromRoot.Some? then keyFromRoot else keyFromVersion;
      if key.None? || key.value !in releases { return Err("NOT_FOUND", "Trusted release not found"); }
      var reason := Or(m.reason, "");
      if |reason| > 512 { return Err("INVALID_INPUT", "too_long:Reason"); }
      var release := releases[key.value];
      if release.revokedAt.Some? { return Already(release); }
      release := release.(revokedAt := Some(now), revokedReason := reason);
      releases := releases[key.value := release];
      if policy.activeRoot == Some(release.root) {
        policy := policy.(paused := true, pauseReason := Some("active_root_revoked"), pausedBy := m.actorRole,
                          pausedAt := Some(now), updatedAt := Some(now));
      }
      reply := Revoked(release, policy.paused);
    }

    method SetIntegrityPolicyPause(m: PauseMsg, now: string) returns (reply: Reply)
      modifies this
      ensures (Now(), reply) == Pause(old(Now()), m, now)
    {
      if m.paused.None? { return Err("INVALID_INPUT", "Missing required field"); }
      var paused := ParseBool(m.paused.value);
      if paused.None? { return Err("INVALID_INPUT", "invalid_boolean:Paused"); }
      var reason := Or(m.reason, "");
      if |reason| > 512 { return Err("INVALID_INPUT", "too_long:Reason"); }
      if m.policyHash.Some? {
        var bad := TokenError(m.policyHash.value, "Policy-Hash", 256);
        if bad.Some? { return Err("INVALID_INPUT", bad.value); }
        if m.policyHash.value != "" { policy := policy.(activePolicyHash := m.policyHash.value); }
      }
      if !m.maxAge.Absent? {
        if !m.maxAge.Number? || !PositiveInteger(m.maxAge.r) {
          return Err("INVALID_INPUT", "invalid_number:Max-CheckIn-Age-Sec");
        }
        policy := policy.(maxCheckInAgeSec := m.maxAge.r);
      }
      policy := policy.(paused := paused.value, updatedAt := Some(now), pausedBy := m.actorRole);
      if paused.value {
        policy := policy.(pausedAt := Some(now), pauseReason := Some(reason));
      } else {
        policy := policy.(pausedAt := None, pauseReason := None);
      }
      reply := PolicySet(policy);
    }

    method AppendIntegrityAuditCommitment(m: AppendMsg, now: string) returns (reply: Reply)
      modifies this
      ensures (Now(), reply) == Append(old(Now()), m, now)
    {
      if !AppendComplete(m) { return Err("INVALID_INPUT", "Missing required field"); }
      if !m.seqFrom.Number? || !PositiveInteger(m.seqFrom.r) { return Err("INVALID_INPUT", "invalid_number:Seq-From"); }
      if !m.seqTo.Number? || !PositiveInteger(m.seqTo.r) { return Err("INVALID_INPUT", "invalid_number:Seq-To"); }
      var seqFrom, seqTo := m.seqFrom.r.Floor, m.seqTo.r.Floor;
      if seqTo < seqFrom { return Err("INVALID_INPUT", "Invalid audit sequence range"); }
      if audit.seqTo > 0 && seqFrom <= audit.seqTo {
        return Err("VERSION_CONFLICT", "Audit sequence overlaps existing range");
      }
      var bad := First(TokenError(m.merkleRoot.value, "Merkle-Root", 256),
                 First(TokenError(m.metaHash.value, "Meta-Hash", 256),
                       TokenError(m.reporterRef.value, "Reporter-Ref", 256)));
      if bad.Some? { return Err("INVALID_INPUT", bad.value); }
      var acceptedAt := Or(m.acceptedAt, now);
      var badTime := TimeError(acceptedAt, "Accepted-At");
      if badTime.Some? { return Err("INVALID_INPUT", badTime.value); }
      audit := Audit(seqFrom, seqTo, m.merkleRoot.value, m.metaHash.value, m.reporterRef.value, acceptedAt);
      reply := Appended(audit);
    }

    method GetTrustedRoot(component: Option<string>) returns (reply: RootReply)
      ensures reply == TrustedRoot(Now(), component)
    {
      var c := Or(component, "gateway");
      var bad := TokenError(c, "Component-Id", 96);
      if bad.Some? { return NoRoot("INVALID_INPUT", bad.value); }
      var release := GetActiveRelease(Some(c));
      if release.None? { return NoRoot("NOT_FOUND", "Active trusted root is not set"); }
      if release.value.revokedAt.Some? { return NoRoot("NOT_FOUND", "Active trusted root is revoked"); }
      var r := release.value;
      reply := Root(r.componentId, r.version, r.root, policy.paused, policy.activePolicyHash);
    }

    method GetIntegritySnapshot() returns (reply: SnapshotReply)
      ensures reply == SnapshotOf(Now())
    {
      var release := GetActiveRelease(None);
      if release.None? { return NoSnapshot("NOT_FOUND", "Active trusted release is not set"); }
      if release.value.revokedAt.Some? { return NoSnapshot("NOT_FOUND", "Active trusted release is revoked"); }
      reply := Snapshot(release.value, policy, audit);
    }
  }
}
