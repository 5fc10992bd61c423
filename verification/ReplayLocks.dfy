// Replay protection of the worker with Durable Object locks: the local claim
// map of an isolate, the lock object, and the two of them inside the protocol
// that any number of concurrent requests run.
module ReplayLocks {

  import opened Wrappers

  // ---------------------------------------------------------------- the lock object

  // The lifetime of a lock: the requested ttl, cut to one day.
  function LockTtl(ttl: int): (life: int)
    ensures 1 <= life <= 86400 && (1 <= ttl <= 86400 ==> life == ttl)
    ensures (ttl > 86400 ==> life == 86400) && (ttl <= 0 ==> life == 600)
  {
    if ttl > 0 then Min(86400, Max(1, ttl)) else 600
  }

  function Blocked(exp: Option<int>, now: int): bool { exp.Some? && exp.value > now }

  class ReplayLockDurableObject {
    var exp: Option<int>

    constructor ()
      ensures exp == None
    {
      exp := None;
    }

    // POST /claim: 409 while a lock is live, otherwise a new lock.
    method Claim(now: int, ttl: int) returns (granted: bool)
      modifies this
      ensures granted == !Blocked(old(exp), now)
      ensures exp == if granted then Some(now + LockTtl(ttl)) else old(exp)
    {
      var lifetime := 600;
      if ttl > 0 { lifetime := Min(86400, Max(1, ttl)); }
      if exp.Some? && exp.value > now { return false; }
      exp := Some(now + lifetime);
      return true;
    }

    method Forget()
      modifies this
      ensures exp == None
    {
      exp := None;
    }

    // The alarm only removes what no longer blocks anyone.
    method Alarm(now: int)
      modifies this
      ensures exp == old(exp) || exp == None
      ensures forall t :: t >= now ==> Blocked(exp, t) == Blocked(old(exp), t)
    {
      if exp.None? || exp.value <= now { exp := None; }
    }
  }

  // ---------------------------------------------------------------- the claim map of an isolate

  function ClaimLife(ttl: int): (life: int)
    ensures 1 <= life <= 15 && (1 <= ttl <= 15 ==> life == ttl) && (ttl > 15 ==> life == 15)
  {
    Max(1, Min(15, ttl))
  }

  function Unexpired(claims: map<string, int>, now: int): map<string, int> {
    map k | k in claims && claims[k] > now :: claims[k]
  }

  class ReplayClaims {
    var claims: map<string, int>

    constructor ()
      ensures claims == map[]
    {
      claims := map[];
    }

    method Prune(now: int)
      modifies this
      ensures claims == Unexpired(old(claims), now)
    {
      var todo := claims.Keys;
      ghost var was := claims;
      while todo != {}
        invariant todo <= was.Keys
        invariant claims.Keys == set k | k in was && (k in todo || was[k] > now)
        invariant forall k :: k in claims ==> claims[k] == was[k]
        decreases todo
      {
        var k :| k in todo;
        if k in claims && claims[k] <= now { claims := claims - {k}; }
        todo := todo - {k};
      }
    }

    // claimReplayKey: refuse a key that is claimed in this isolate.
    method ClaimReplayKey(key: string, now: int, ttl: int) returns (ok: bool)
      modifies this
      ensures ok == (key !in Unexpired(old(claims), now))
      ensures claims == if ok then Unexpired(old(claims), now)[key := now + ClaimLife(ttl)]
                        else Unexpired(old(claims), now)
    {
      Prune(now);
      if key in claims { return false; }
      claims := claims[key := now + ClaimLife(ttl)];
      return true;
    }
  }

  // ---------------------------------------------------------------- the protocol

  type Key = string
  type Req = nat
  type Isolate = nat

  datatype Pc =
    | Claiming                    // the /claim call is under way
    | Persisting(attempt: nat)    // lock taken, the marker write is under way
    | Clearing                    // the write failed, the compensating /forget is under way
    | Returning(ok: bool)         // the answer is known, the finally block is still to run
    | Done(ok: bool)

  // `at` is the place of the call's claim in the log.
  datatype Call = Call(isolate: Isolate, key: Key, pc: Pc, at: nat)

  datatype Event =
    | Claimed(req: Req, key: Key, time: int, exp: int)   // a lock was granted
    | Won(req: Req, key: Key, time: int)                 // checkReplay succeeds
    | Compensated(req: Req, key: Key, time: int)         // a failing call cleared the lock
    | Forgot(key: Key, time: int)                        // /forget cleared the lock
    | Erased(key: Key, time: int)                        // /forget deleted the marker

  datatype State = State(
    now: int,
    claims: map<Isolate, map<Key, int>>,
    locks: map<Key, int>,
    markers: map<Key, int>,        // KV markers, by expiry
    calls: map<Req, Call>,
    log: seq<Event>)

  datatype Write = Stored | Busy | Broken

  // One atomic step: `applied` and `delivered` say whether a remote effect took
  // place and whether its answer came back.
  datatype Step =
    | Tick(seconds: nat)
    | Begin(req: Req, isolate: Isolate, key: Key)
    | LockClaim(req: Req, applied: bool, delivered: bool)
    | Persist(req: Req, applied: bool, outcome: Write)
    | Compensate(req: Req, applied: bool)
    | Finish(req: Req)
    | AlarmFires(key: Key)
    | ForgetMarker(key: Key)
    | ForgetLock(key: Key)

  const Init := State(0, map[], map[], map[], map[], [])

  function ClaimsOf(s: State, i: Isolate): map<Key, int> { if i in s.claims then s.claims[i] else map[] }

  function LockOf(s: State, k: Key): Option<int> { if k in s.locks then Some(s.locks[k]) else None }

  predicate At(s: State, r: Req, pc: Pc) { r in s.calls && s.calls[r].pc == pc }

  function Goto(s: State, r: Req, pc: Pc): State
    requires r in s.calls
  {
    s.(calls := s.calls[r := s.calls[r].(pc := pc)])
  }

  // The state after a step; a step that is not enabled changes nothing.
  function Apply(ttl: int, s: State, a: Step): State {
    match a
    case Tick(d) => s.(now := s.now + d)
    case Begin(r, i, k) =>
      if r in s.calls then s else
      var live := Unexpired(ClaimsOf(s, i), s.now);
      if k in live then s.(claims := s.claims[i := live], calls := s.calls[r := Call(i, k, Done(false), 0)])
      else s.(claims := s.claims[i := live[k := s.now + ClaimLife(ttl)]],
              calls := s.calls[r := Call(i, k, Claiming, 0)])
    case LockClaim(r, applied, delivered) =>
      if !At(s, r, Claiming) then s
      else if !applied || Blocked(LockOf(s, s.calls[r].key), s.now) then Goto(s, r, Returning(false))
      else
        var k, e := s.calls[r].key, s.now + LockTtl(ttl);
        var pc := if delivered then Persisting(0) else Returning(false);
        s.(locks := s.locks[k := e],
           calls := s.calls[r := s.calls[r].(pc := pc, at := |s.log|)],
           log := s.log + [Claimed(r, k, s.now, e)])
    case Persist(r, applied, outcome) =>
      if r !in s.calls || !s.calls[r].pc.Persisting? then s else
      var k, n := s.calls[r].key, s.calls[r].pc.attempt;
      var t := if applied || outcome.Stored? then s.(markers := s.markers[k := s.now + ttl]) else s;
      (match outcome
       case Stored => Goto(t, r, Returning(true)).(log := t.log + [Won(r, k, s.now)])
       case Busy => Goto(t, r, if n < 2 then Persisting(n + 1) else Clearing)
       case Broken => Goto(t, r, Clearing))
    case Compensate(r, applied) =>
      if !At(s, r, Clearing) then s
      else
        var k := s.calls[r].key;
        if applied then
          Goto(s, r, Returning(false)).(locks := s.locks - {k}, log := s.log + [Compensated(r, k, s.now)])
        else Goto(s, r, Returning(false))
    case Finish(r) =>
      if r !in s.calls || !s.calls[r].pc.Returning? then s else
      var i, k := s.calls[r].isolate, s.calls[r].key;
      Goto(s, r, Done(s.calls[r].pc.ok)).(claims := s.claims[i := ClaimsOf(s, i) - {k}])
    case AlarmFires(k) =>
      if k in s.locks && s.locks[k] <= s.now then s.(locks := s.locks - {k}) else s
    case ForgetMarker(k) => s.(markers := s.markers - {k}, log := s.log + [Erased(k, s.now)])
    case ForgetLock(k) => s.(locks := s.locks - {k}, log := s.log + [Forgot(k, s.now)])
  }

  function Run(ttl: int, s: State, steps: seq<Step>): State
    decreases |steps|
  {
    if steps == [] then s else Apply(ttl, Run(ttl, s, steps[..|steps| - 1]), steps[|steps| - 1])
  }

  // ---------------------------------------------------------------- reading the log

  predicate ClaimAt(log: seq<Event>, i: nat, k: Key) {
    i < |log| && log[i].Claimed? && log[i].key == k
  }

  predicate ClearAt(log: seq<Event>, i: nat, k: Key) {
    i < |log| && (log[i].Compensated? || log[i].Forgot?) && log[i].key == k
  }

  predicate NoClear(log: seq<Event>, from: nat, to: nat, k: Key) {
    forall m: nat :: from < m < to ==> !ClearAt(log, m, k)
  }

  // What every log satisfies: time runs forward, a lock lasts its lifetime, a
  // claim is granted only on a free lock, and each call claims once, and then
  // either wins once or compensates at most once.
  ghost predicate Clocked(log: seq<Event>, now: int) {
    (forall i :: 0 <= i < |log| ==> log[i].time <= now) &&
    forall i, j :: 0 <= i <= j < |log| ==> log[i].time <= log[j].time
  }

  ghost predicate Lifetimes(ttl: int, log: seq<Event>) {
    forall i :: 0 <= i < |log| && log[i].Claimed? ==> log[i].exp == log[i].time + LockTtl(ttl)
  }

  ghost predicate FreeWhenClaimed(log: seq<Event>) {
    forall p: nat, q: nat, k :: p < q && ClaimAt(log, p, k) && ClaimAt(log, q, k) && NoClear(log, p, q, k) ==>
      log[p].exp <= log[q].time
  }

  // The lock that the latest uncleared claim took is still there.
  ghost predicate LocksHeld(s: State) {
    forall p: nat, k :: ClaimAt(s.log, p, k) && NoClear(s.log, p, |s.log|, k) ==>
      s.log[p].exp <= s.now || (k in s.locks && s.locks[k] >= s.log[p].exp)
  }

  predicate Owns(s: State, r: Req, i: nat, k: Key) {
    r in s.calls && s.calls[r].at < i && s.calls[r].key == k &&
    ClaimAt(s.log, s.calls[r].at, k) && s.log[s.calls[r].at].req == r
  }

  ghost predicate ClaimsKnown(s: State) {
    forall i: nat :: i < |s.log| && s.log[i].Claimed? ==>
      var r := s.log[i].req;
      r in s.calls && !s.calls[r].pc.Claiming? && s.calls[r].at == i && s.calls[r].key == s.log[i].key
  }

  ghost predicate HoldersKnown(s: State) {
    forall r :: r in s.calls && (s.calls[r].pc.Persisting? || s.calls[r].pc.Clearing?) ==>
      Owns(s, r, |s.log|, s.calls[r].key)
  }

  predicate Failed(pc: Pc) { pc == Returning(false) || pc == Done(false) }
  predicate Succeeded(pc: Pc) { pc == Returning(true) || pc == Done(true) }

  ghost predicate OutcomesKnown(s: State) {
    forall i: nat :: i < |s.log| ==>
      (s.log[i].Compensated? ==> Owns(s, s.log[i].req, i, s.log[i].key) && Failed(s.calls[s.log[i].req].pc)) &&
      (s.log[i].Won? ==> Owns(s, s.log[i].req, i, s.log[i].key) && Succeeded(s.calls[s.log[i].req].pc))
  }

  ghost predicate CallsKnown(s: State) { ClaimsKnown(s) && HoldersKnown(s) && OutcomesKnown(s) }

  predicate Outcome(e: Event) { e.Compensated? || e.Won? }

  ghost predicate OncePerCall(log: seq<Event>) {
    forall i: nat, j: nat :: i < j < |log| && Outcome(log[i]) && Outcome(log[j]) ==> log[i].req != log[j].req
  }

  ghost predicate Inv(ttl: int, s: State) {
    Clocked(s.log, s.now) && Lifetimes(ttl, s.log) && FreeWhenClaimed(s.log) && LocksHeld(s) &&
    CallsKnown(s) && OncePerCall(s.log)
  }

  // ---------------------------------------------------------------- the invariant

  // A step that writes nothing to the log and weakens no lock.
  lemma QuietStep(ttl: int, s: State, t: State)
    requires Inv(ttl, s) && t.log == s.log && t.now >= s.now
    requires forall k :: k in s.locks && s.locks[k] > t.now ==> k in t.locks && t.locks[k] == s.locks[k]
    requires CallsKnown(t)
    ensures Inv(ttl, t)
  {
  }

  // A step that logs something other than a claim.
  lemma LoggedStep(ttl: int, s: State, t: State, e: Event)
    requires Inv(ttl, s) && t.log == s.log + [e] && t.now == s.now == e.time && !e.Claimed?
    requires forall k :: k in s.locks && !ClearAt(t.log, |s.log|, k) ==> k in t.locks && t.locks[k] == s.locks[k]
    requires CallsKnown(t)
    requires Outcome(e) ==> forall i: nat :: i < |s.log| && Outcome(s.log[i]) ==> s.log[i].req != e.req
    ensures Inv(ttl, t)
  {
    forall p: nat, q: nat, k | p < q && ClaimAt(t.log, p, k) && ClaimAt(t.log, q, k) && NoClear(t.log, p, q, k)
      ensures t.log[p].exp <= t.log[q].time
    {
      SamePrefix(s.log, e, p, q, k);
    }
    forall p: nat, k | ClaimAt(t.log, p, k) && NoClear(t.log, p, |t.log|, k)
      ensures t.log[p].exp <= t.now || (k in t.locks && t.locks[k] >= t.log[p].exp)
    {
      SamePrefix(s.log, e, p, |s.log|, k);
      assert !ClearAt(t.log, |s.log|, k);
    }
  }

  lemma {:induction false} SamePrefix(log: seq<Event>, e: Event, p: nat, q: nat, k: Key)
    requires q <= |log| && NoClear(log + [e], p, q, k)
    ensures NoClear(log, p, q, k)
  {
    forall m: nat | p < m < q ensures !ClearAt(log, m, k) {
      assert !ClearAt(log + [e], m, k);
    }
  }

  lemma ClaimStep(ttl: int, s: State, r: Req, delivered: bool)
    requires Inv(ttl, s) && At(s, r, Claiming) && !Blocked(LockOf(s, s.calls[r].key), s.now)
    ensures Inv(ttl, Apply(ttl, s, LockClaim(r, true, delivered)))
  {
    var t := Apply(ttl, s, LockClaim(r, true, delivered));
    ClaimOnFreeLock(ttl, s, t, t.log[|s.log|]);
    CallClaims(s, t, r, t.calls[r], t.log[|s.log|]);
  }

  lemma ClaimOnFreeLock(ttl: int, s: State, t: State, e: Event)
    requires Inv(ttl, s) && t.log == s.log + [e] && e.Claimed? && t.now == s.now == e.time
    requires e.exp >= s.now && !Blocked(LockOf(s, e.key), s.now) && t.locks == s.locks[e.key := e.exp]
    ensures FreeWhenClaimed(t.log) && LocksHeld(t)
  {
    var n := |s.log|;
    forall p: nat, q: nat, j | p < q && ClaimAt(t.log, p, j) && ClaimAt(t.log, q, j) && NoClear(t.log, p, q, j)
      ensures t.log[p].exp <= t.log[q].time
    {
      SamePrefix(s.log, e, p, q, j);
      assert ClaimAt(s.log, p, j);
      if q < n { assert ClaimAt(s.log, q, j); }
    }
    forall p: nat, j | ClaimAt(t.log, p, j) && NoClear(t.log, p, |t.log|, j)
      ensures t.log[p].exp <= t.now || (j in t.locks && t.locks[j] >= t.log[p].exp)
    {
      if p < n {
        assert ClaimAt(s.log, p, j);
        assert NoClear(t.log, p, n, j);
        SamePrefix(s.log, e, p, n, j);
      }
    }
  }

  lemma CallClaims(s: State, t: State, r: Req, c: Call, e: Event)
    requires CallsKnown(s) && At(s, r, Claiming) && t.log == s.log + [e] && t.calls == s.calls[r := c]
    requires e.Claimed? && e.req == r && e.key == s.calls[r].key
    requires c.at == |s.log| && c.key == e.key && (c.pc.Persisting? || c.pc.Returning?)
    ensures CallsKnown(t)
  {
    OwnersAfter(s, t, e);
  }

  // Facts about calls survive a longer log.
  lemma OwnersAfter(s: State, t: State, e: Event)
    requires t.log == s.log + [e]
    ensures forall r, i: nat, k ::
      (Owns(s, r, i, k) && r in t.calls && t.calls[r].at == s.calls[r].at && t.calls[r].key == s.calls[r].key ==>
         Owns(t, r, i, k))
  {
  }

  // A call moves on without a trace in the log: it keeps its claim, and it
  // becomes a holder of a lock only if it was one.
  lemma CallMoves(s: State, t: State, r: Req, pc: Pc)
    requires CallsKnown(s) && t.log == s.log && r in s.calls
    requires t.calls == s.calls[r := s.calls[r].(pc := pc)] && !pc.Claiming?
    requires pc.Persisting? || pc.Clearing? ==> s.calls[r].pc.Persisting?
    requires Succeeded(s.calls[r].pc) ==> Succeeded(pc)
    requires Failed(s.calls[r].pc) ==> Failed(pc)
    ensures CallsKnown(t)
  {
    assert forall q, i: nat, k :: Owns(s, q, i, k) ==> Owns(t, q, i, k);
  }

  lemma CallBegins(s: State, t: State, r: Req, c: Call)
    requires CallsKnown(s) && t.log == s.log && r !in s.calls && t.calls == s.calls[r := c]
    requires c.pc.Claiming? || c.pc.Done?
    ensures CallsKnown(t)
  {
    assert forall q, n: nat, j :: Owns(s, q, n, j) ==> Owns(t, q, n, j);
  }

  lemma BeginStep(ttl: int, s: State, r: Req, i: Isolate, k: Key)
    requires Inv(ttl, s)
    ensures Inv(ttl, Apply(ttl, s, Begin(r, i, k)))
  {
    var t := Apply(ttl, s, Begin(r, i, k));
    if r !in s.calls {
      CallBegins(s, t, r, t.calls[r]);
      QuietStep(ttl, s, t);
    }
  }

  lemma PersistStep(ttl: int, s: State, r: Req, applied: bool, outcome: Write)
    requires Inv(ttl, s)
    ensures Inv(ttl, Apply(ttl, s, Persist(r, applied, outcome)))
  {
    var t := Apply(ttl, s, Persist(r, applied, outcome));
    if r in s.calls && s.calls[r].pc.Persisting? {
      if outcome.Stored? {
        WonStep(ttl, s, r, applied);
      } else {
        CallMoves(s, t, r, t.calls[r].pc);
        QuietStep(ttl, s, t);
      }
    }
  }

  lemma WonStep(ttl: int, s: State, r: Req, applied: bool)
    requires Inv(ttl, s) && r in s.calls && s.calls[r].pc.Persisting?
    ensures Inv(ttl, Apply(ttl, s, Persist(r, applied, Stored)))
  {
    var t := Apply(ttl, s, Persist(r, applied, Stored));
    var u := Goto(s, r, Returning(true));
    CallMoves(s, u, r, u.calls[r].pc);
    var e := Won(r, s.calls[r].key, s.now);
    OwnersAfter(u, t, e);
    LoggedStep(ttl, s, t, e);
  }

  lemma CompensateStep(ttl: int, s: State, r: Req, applied: bool)
    requires Inv(ttl, s)
    ensures Inv(ttl, Apply(ttl, s, Compensate(r, applied)))
  {
    var t := Apply(ttl, s, Compensate(r, applied));
    if At(s, r, Clearing) {
      var u := Goto(s, r, Returning(false));
      CallMoves(s, u, r, u.calls[r].pc);
      if applied {
        var e := Compensated(r, s.calls[r].key, s.now);
        OwnersAfter(u, t, e);
        assert ClearAt(t.log, |s.log|, e.key);
        LoggedStep(ttl, s, t, e);
      } else {
        QuietStep(ttl, s, t);
      }
    }
  }

  lemma FinishStep(ttl: int, s: State, r: Req)
    requires Inv(ttl, s)
    ensures Inv(ttl, Apply(ttl, s, Finish(r)))
  {
    var t := Apply(ttl, s, Finish(r));
    if r in s.calls && s.calls[r].pc.Returning? {
      CallMoves(s, t, r, t.calls[r].pc);
      QuietStep(ttl, s, t);
    }
  }

  lemma ForgetStep(ttl: int, s: State, t: State, e: Event)
    requires Inv(ttl, s) && t.log == s.log + [e] && t.now == s.now == e.time && t.calls == s.calls
    requires e.Forgot? || e.Erased?
    requires forall k :: k in s.locks && !(e.Forgot? && e.key == k) ==> k in t.locks && t.locks[k] == s.locks[k]
    ensures Inv(ttl, t)
  {
    OwnersAfter(s, t, e);
    LoggedStep(ttl, s, t, e);
  }

  lemma LockClaimStep(ttl: int, s: State, r: Req, applied: bool, delivered: bool)
    requires Inv(ttl, s)
    ensures Inv(ttl, Apply(ttl, s, LockClaim(r, applied, delivered)))
  {
    var t := Apply(ttl, s, LockClaim(r, applied, delivered));
    if At(s, r, Claiming) {
      if applied && !Blocked(LockOf(s, s.calls[r].key), s.now) {
        ClaimStep(ttl, s, r, delivered);
      } else {
        CallMoves(s, t, r, t.calls[r].pc);
        QuietStep(ttl, s, t);
      }
    }
  }

  lemma StepKeepsInv(ttl: int, s: State, a: Step)
    requires Inv(ttl, s)
    ensures Inv(ttl, Apply(ttl, s, a))
  {
    match a
    case Tick(d) => QuietStep(ttl, s, s.(now := s.now + d));
    case Begin(r, i, k) => BeginStep(ttl, s, r, i, k);
    case LockClaim(r, applied, delivered) => LockClaimStep(ttl, s, r, applied, delivered);
    case Persist(r, applied, outcome) => PersistStep(ttl, s, r, applied, outcome);
    case Compensate(r, applied) => CompensateStep(ttl, s, r, applied);
    case Finish(r) => FinishStep(ttl, s, r);
    case AlarmFires(k) => QuietStep(ttl, s, Apply(ttl, s, AlarmFires(k)));
    case ForgetMarker(k) => ForgetStep(ttl, s, Apply(ttl, s, ForgetMarker(k)), Erased(k, s.now));
    case ForgetLock(k) => ForgetStep(ttl, s, Apply(ttl, s, ForgetLock(k)), Forgot(k, s.now));
  }

  lemma {:induction false} RunKeepsInv(ttl: int, steps: seq<Step>)
    ensures Inv(ttl, Run(ttl, Init, steps))
    decreases |steps|
  {
    if steps != [] {
      RunKeepsInv(ttl, steps[..|steps| - 1]);
      StepKeepsInv(ttl, Run(ttl, Init, steps[..|steps| - 1]), steps[|steps| - 1]);
    }
  }

  // ---------------------------------------------------------------- single winner

  ghost predicate ForgetBetween(log: seq<Event>, p: nat, q: nat, k: Key) {
    exists f: nat :: p < f < q && f < |log| && log[f].Forgot? && log[f].key == k
  }

  predicate SameFailedCall(a: Event, m: Event) { a.Claimed? && m.Compensated? && a.req == m.req }

  // The failed call that claimed at a, before p, cleared at m, between p and q.
  predicate Straddles(log: seq<Event>, a: nat, p: nat, m: nat, q: nat, k: Key) {
    a < p < m < q && m < |log| && ClaimAt(log, a, k) && SameFailedCall(log[a], log[m])
  }

  // Why a lock was granted again at q before the one taken at p ran out: /forget
  // cleared k in between, or a failed call cleared there whose own claim came
  // before p, so that the claim at p was early too and is explained in the same way.
  ghost predicate Explained(log: seq<Event>, p: nat, q: nat, k: Key)
    decreases p
  {
    ForgetBetween(log, p, q, k) ||
    exists a: nat, m: nat :: Straddles(log, a, p, m, q, k) && Explained(log, a, p, k)
  }

  // Every compensating clear runs before the lock of its own call expires.
  ghost predicate Timely(log: seq<Event>) {
    forall a: nat, m: nat :: a < |log| && m < |log| && SameFailedCall(log[a], log[m]) ==>
      log[m].time < log[a].exp
  }

  lemma {:induction false} FirstClear(log: seq<Event>, p: nat, q: nat, k: Key) returns (m: nat)
    requires p < q <= |log| && !NoClear(log, p, q, k)
    ensures p < m < q && ClearAt(log, m, k) && NoClear(log, p, m, k)
  {
    m := p + 1;
    while !ClearAt(log, m, k)
      invariant p < m < q && NoClear(log, p, m, k)
      decreases q - m
    {
      if m + 1 == q { assert NoClear(log, p, q, k); }
      m := m + 1;
    }
  }

  lemma {:induction false} ClaimOfClear(ttl: int, s: State, m: nat, k: Key) returns (a: nat)
    requires Inv(ttl, s) && ClearAt(s.log, m, k) && s.log[m].Compensated?
    ensures a < m && ClaimAt(s.log, a, k) && SameFailedCall(s.log[a], s.log[m])
  {
    a := s.calls[s.log[m].req].at;
    assert Owns(s, s.log[m].req, m, k);
  }

  // A claim after p and before the next clear waits for the lock taken at p.
  lemma {:induction false} ClaimedBeforeClear(ttl: int, s: State, p: nat, a: nat, m: nat, k: Key)
    requires Inv(ttl, s) && ClaimAt(s.log, p, k) && ClaimAt(s.log, a, k) && NoClear(s.log, p, m, k) && p < a < m
    ensures s.log[p].exp <= s.log[a].time
  {
    assert NoClear(s.log, p, a, k);
  }

  // If a lock is granted again before it ran out, some /forget explains it.
  lemma {:induction false} EarlyReclaim(ttl: int, s: State, p: nat, q: nat, k: Key)
    requires Inv(ttl, s) && Timely(s.log) && p < q
    requires ClaimAt(s.log, p, k) && ClaimAt(s.log, q, k) && s.log[q].time < s.log[p].exp
    requires forall m: nat :: m < q && s.log[m].Compensated? ==> s.log[m].req != s.log[p].req
    ensures Explained(s.log, p, q, k)
    decreases p
  {
    var log := s.log;
    var m := FirstClear(log, p, q, k);
    if log[m].Compensated? {
      var a := ClaimOfClear(ttl, s, m, k);
      if a > p { ClaimedBeforeClear(ttl, s, p, a, m, k); }
      assert Straddles(log, a, p, m, q, k);
      EarlyReclaim(ttl, s, a, p, k);
    }
  }

  // In the end there is a /forget.
  lemma {:induction false} ExplainedByForget(log: seq<Event>, p: nat, q: nat, k: Key) returns (f: nat)
    requires Explained(log, p, q, k)
    ensures f < q && f < |log| && log[f].Forgot? && log[f].key == k
    decreases p
  {
    if ForgetBetween(log, p, q, k) {
      f :| p < f < q && f < |log| && log[f].Forgot? && log[f].key == k;
    } else {
      var a: nat, m: nat :| Straddles(log, a, p, m, q, k) && Explained(log, a, p, k);
      f := ExplainedByForget(log, a, p, k);
    }
  }

  // The time at which the call that won at place i took its lock.
  function ClaimTime(s: State, i: nat): int
    requires i < |s.log| && s.log[i].Won? && s.log[i].req in s.calls && s.calls[s.log[i].req].at < |s.log|
  {
    s.log[s.calls[s.log[i].req].at].time
  }

  // Main result: in every interleaving of calls, isolates, lost answers, failing
  // writes, alarms and /forget, two successes for one key are a full lock
  // lifetime apart in claim time, or a /forget of that key explains it: one between
  // the two claims, or one before, through a chain of failed calls each of which
  // claimed before and cleared after the claim it made way for.
  lemma {:induction false} WinsAreSeparated(ttl: int, steps: seq<Step>, i: nat, j: nat, k: Key)
    requires var s := Run(ttl, Init, steps);
      Timely(s.log) && i < |s.log| && j < |s.log| && i != j &&
      s.log[i].Won? && s.log[j].Won? && s.log[i].key == s.log[j].key == k
    ensures var s := Run(ttl, Init, steps);
      Owns(s, s.log[i].req, i, k) && Owns(s, s.log[j].req, j, k) &&
      var p, q := s.calls[s.log[i].req].at, s.calls[s.log[j].req].at;
      p != q &&
      (p < q ==> ClaimTime(s, i) + LockTtl(ttl) <= ClaimTime(s, j) || Explained(s.log, p, q, k))
  {
    RunKeepsInv(ttl, steps);
    var s := Run(ttl, Init, steps);
    var p, q := s.calls[s.log[i].req].at, s.calls[s.log[j].req].at;
    if p < q && s.log[q].time < s.log[p].exp {
      EarlyReclaim(ttl, s, p, q, k);
    }
  }

  lemma {:induction false} NotExplained(log: seq<Event>, p: nat, q: nat, k: Key)
    requires forall f: nat :: f < |log| && log[f].Forgot? ==> log[f].key != k
    ensures !Explained(log, p, q, k)
  {
    if Explained(log, p, q, k) { var f := ExplainedByForget(log, p, q, k); }
  }

  // In particular, without a /forget of the key nothing ever admits a second
  // winner early: not the alarm, not the local claim map, not a lost answer.
  lemma {:induction false} WithoutForgetOneWinner(ttl: int, steps: seq<Step>, i: nat, j: nat, k: Key)
    requires var s := Run(ttl, Init, steps);
      Timely(s.log) && i < |s.log| && j < |s.log| && i != j &&
      s.log[i].Won? && s.log[j].Won? && s.log[i].key == s.log[j].key == k &&
      forall f: nat :: f < |s.log| && s.log[f].Forgot? ==> s.log[f].key != k
    ensures var s := Run(ttl, Init, steps);
      Owns(s, s.log[i].req, i, k) && Owns(s, s.log[j].req, j, k) &&
      (ClaimTime(s, i) + LockTtl(ttl) <= ClaimTime(s, j) || ClaimTime(s, j) + LockTtl(ttl) <= ClaimTime(s, i))
  {
    WinsAreSeparated(ttl, steps, i, j, k);
    WinsAreSeparated(ttl, steps, j, i, k);
    var s := Run(ttl, Init, steps);
    NotExplained(s.log, s.calls[s.log[i].req].at, s.calls[s.log[j].req].at, k);
    NotExplained(s.log, s.calls[s.log[j].req].at, s.calls[s.log[i].req].at, k);
  }

  // ---------------------------------------------------------------- what a call leaves behind

  lemma {:induction false} Snoc(ttl: int, s: State, steps: seq<Step>, a: Step)
    ensures Run(ttl, s, steps + [a]) == Apply(ttl, Run(ttl, s, steps), a)
  {
    assert (steps + [a])[..|steps|] == steps;
  }

  lemma {:induction false} RunConcat(ttl: int, s: State, a: seq<Step>, b: seq<Step>)
    ensures Run(ttl, s, a + b) == Run(ttl, Run(ttl, s, a), b)
    decreases |b|
  {
    if b == [] {
      assert a + b == a;
    } else {
      RunConcat(ttl, s, a, b[..|b| - 1]);
      assert (a + b)[..|a + b| - 1] == a + b[..|b| - 1];
    }
  }

  // The steps of one call that meets no fault, and where they lead.
  function Calls(r: Req, i: Isolate, k: Key): seq<Step> {
    [Begin(r, i, k), LockClaim(r, true, true), Persist(r, true, Stored)]
  }

  function AfterCall(ttl: int, s: State, r: Req, i: Isolate, k: Key): State {
    var live := Unexpired(ClaimsOf(s, i), s.now);
    var claims := s.claims[i := live[k := s.now + ClaimLife(ttl)]];
    if Blocked(LockOf(s, k), s.now) then
      s.(claims := claims, calls := s.calls[r := Call(i, k, Returning(false), 0)])
    else
      var e := s.now + LockTtl(ttl);
      State(s.now, claims, s.locks[k := e], s.markers[k := s.now + ttl],
            s.calls[r := Call(i, k, Returning(true), |s.log|)],
            s.log + [Claimed(r, k, s.now, e), Won(r, k, s.now)])
  }

  lemma RunThree(ttl: int, s: State, a: Step, b: Step, c: Step)
    ensures Run(ttl, s, [a, b, c]) == Apply(ttl, Apply(ttl, Apply(ttl, s, a), b), c)
  {
    assert [] + [a] == [a] && [a] + [b] == [a, b] && [a, b] + [c] == [a, b, c];
    Snoc(ttl, s, [], a);
    Snoc(ttl, s, [a], b);
    Snoc(ttl, s, [a, b], c);
  }

  // A call for a key that its isolate holds no claim on, and that meets no fault,
  // wins exactly when the lock of its key is not live.
  lemma CallRuns(ttl: int, s: State, r: Req, i: Isolate, k: Key)
    requires r !in s.calls && k !in Unexpired(ClaimsOf(s, i), s.now)
    ensures Run(ttl, s, Calls(r, i, k)) == AfterCall(ttl, s, r, i, k)
  {
    RunThree(ttl, s, Begin(r, i, k), LockClaim(r, true, true), Persist(r, true, Stored));
    AfterThree(ttl, s, Apply(ttl, s, Begin(r, i, k)), r, i, k);
  }

  lemma AfterThree(ttl: int, s: State, s1: State, r: Req, i: Isolate, k: Key)
    requires r !in s.calls && k !in Unexpired(ClaimsOf(s, i), s.now) && s1 == Apply(ttl, s, Begin(r, i, k))
    ensures Apply(ttl, Apply(ttl, s1, LockClaim(r, true, true)), Persist(r, true, Stored)) == AfterCall(ttl, s, r, i, k)
  {
    assert s1.locks == s.locks && s1.calls == s.calls[r := Call(i, k, Claiming, 0)];
    if Blocked(LockOf(s, k), s.now) {
      assert Apply(ttl, s1, LockClaim(r, true, true)).calls == s.calls[r := Call(i, k, Returning(false), 0)];
    } else {
      AfterGrant(ttl, s1, r, i, k);
      assert s1.calls[r := Call(i, k, Returning(true), |s.log|)] == s.calls[r := Call(i, k, Returning(true), |s.log|)];
    }
  }

  lemma AfterGrant(ttl: int, s: State, r: Req, i: Isolate, k: Key)
    requires r in s.calls && s.calls[r] == Call(i, k, Claiming, 0) && !Blocked(LockOf(s, k), s.now)
    ensures var e := s.now + LockTtl(ttl);
      Apply(ttl, Apply(ttl, s, LockClaim(r, true, true)), Persist(r, true, Stored)) ==
      State(s.now, s.claims, s.locks[k := e], s.markers[k := s.now + ttl],
            s.calls[r := Call(i, k, Returning(true), |s.log|)],
            s.log + [Claimed(r, k, s.now, e), Won(r, k, s.now)])
  {
    var t := Apply(ttl, s, LockClaim(r, true, true));
    assert t.calls == s.calls[r := Call(i, k, Persisting(0), |s.log|)];
    var u := Apply(ttl, t, Persist(r, true, Stored));
    assert u.calls == s.calls[r := Call(i, k, Returning(true), |s.log|)];
    assert u.log == s.log + [Claimed(r, k, s.now, s.now + LockTtl(ttl)), Won(r, k, s.now)];
  }

  // A call of this isolate for this key that has not run its finally block.
  predicate Unfinished(s: State, r: Req, i: Isolate, k: Key) {
    r in s.calls && s.calls[r].isolate == i && s.calls[r].key == k && !s.calls[r].pc.Done?
  }

  ghost predicate Idle(s: State, i: Isolate, k: Key) { forall r :: !Unfinished(s, r, i, k) }

  // Whatever an isolate has claimed, one of its calls is still at work on.
  ghost predicate ClaimsOwned(s: State) {
    forall i, k :: k in ClaimsOf(s, i) ==> exists r :: Unfinished(s, r, i, k)
  }

  lemma StepKeepsClaimsOwned(ttl: int, s: State, a: Step)
    requires ClaimsOwned(s)
    ensures ClaimsOwned(Apply(ttl, s, a))
  {
    var t := Apply(ttl, s, a);
    if a.Begin? {
      BeginKeepsClaimsOwned(ttl, s, a.req, a.isolate, a.key);
    } else if a.Finish? {
      FinishKeepsClaimsOwned(ttl, s, a.req);
    } else {
      CallsOnlyAdvance(ttl, s, a);
      forall i, k | k in ClaimsOf(t, i) ensures exists r :: Unfinished(t, r, i, k) {
        assert k in ClaimsOf(s, i);
        var r :| Unfinished(s, r, i, k);
        assert Unfinished(t, r, i, k);
      }
    }
  }

  lemma CallsOnlyAdvance(ttl: int, s: State, a: Step)
    requires !a.Begin? && !a.Finish?
    ensures var t := Apply(ttl, s, a);
      t.claims == s.claims && forall r, i, k :: Unfinished(s, r, i, k) ==> Unfinished(t, r, i, k)
  {
    forall r, i, k | Unfinished(s, r, i, k) ensures Unfinished(Apply(ttl, s, a), r, i, k) {
      OneAdvances(ttl, s, a, r);
    }
  }

  lemma OneAdvances(ttl: int, s: State, a: Step, r: Req)
    requires !a.Begin? && !a.Finish? && r in s.calls && !s.calls[r].pc.Done?
    ensures var t := Apply(ttl, s, a);
      r in t.calls && t.calls[r].isolate == s.calls[r].isolate && t.calls[r].key == s.calls[r].key &&
      !t.calls[r].pc.Done?
  {
    match a
    case LockClaim(q, applied, delivered) => LockClaimAdvances(ttl, s, q, applied, delivered, r);
    case Persist(q, applied, outcome) => PersistAdvances(ttl, s, q, applied, outcome, r);
    case Compensate(q, applied) => CompensateAdvances(ttl, s, q, applied, r);
    case _ =>
  }

  predicate Advanced(s: State, t: State, r: Req)
    requires r in s.calls
  {
    r in t.calls && t.calls[r].isolate == s.calls[r].isolate && t.calls[r].key == s.calls[r].key &&
    (s.calls[r].pc.Done? || !t.calls[r].pc.Done?)
  }

  lemma LockClaimAdvances(ttl: int, s: State, q: Req, applied: bool, delivered: bool, r: Req)
    requires r in s.calls
    ensures Advanced(s, Apply(ttl, s, LockClaim(q, applied, delivered)), r)
  {
  }

  lemma PersistAdvances(ttl: int, s: State, q: Req, applied: bool, outcome: Write, r: Req)
    requires r in s.calls
    ensures Advanced(s, Apply(ttl, s, Persist(q, applied, outcome)), r)
  {
  }

  lemma CompensateAdvances(ttl: int, s: State, q: Req, applied: bool, r: Req)
    requires r in s.calls
    ensures Advanced(s, Apply(ttl, s, Compensate(q, applied)), r)
  {
  }

  lemma BeginKeepsClaimsOwned(ttl: int, s: State, r: Req, i: Isolate, k: Key)
    requires ClaimsOwned(s)
    ensures ClaimsOwned(Apply(ttl, s, Begin(r, i, k)))
  {
    var t := Apply(ttl, s, Begin(r, i, k));
    forall j, x | x in ClaimsOf(t, j) ensures exists q :: Unfinished(t, q, j, x) {
      if x in ClaimsOf(s, j) {
        var q :| Unfinished(s, q, j, x);
        assert Unfinished(t, q, j, x);
      } else {
        assert Unfinished(t, r, j, x);
      }
    }
  }

  lemma FinishKeepsClaimsOwned(ttl: int, s: State, r: Req)
    requires ClaimsOwned(s)
    ensures ClaimsOwned(Apply(ttl, s, Finish(r)))
  {
    var t := Apply(ttl, s, Finish(r));
    forall j, x | x in ClaimsOf(t, j) ensures exists q :: Unfinished(t, q, j, x) {
      assert x in ClaimsOf(s, j);
      var q :| Unfinished(s, q, j, x);
      assert Unfinished(t, q, j, x);
    }
  }

  lemma {:induction false} RunKeepsClaimsOwned(ttl: int, steps: seq<Step>)
    ensures ClaimsOwned(Run(ttl, Init, steps))
    decreases |steps|
  {
    if steps != [] {
      RunKeepsClaimsOwned(ttl, steps[..|steps| - 1]);
      StepKeepsClaimsOwned(ttl, Run(ttl, Init, steps[..|steps| - 1]), steps[|steps| - 1]);
    }
  }

  lemma IdleHoldsNoClaim(s: State, i: Isolate, k: Key)
    requires ClaimsOwned(s) && Idle(s, i, k)
    ensures k !in ClaimsOf(s, i)
  {
    assert !exists r :: Unfinished(s, r, i, k);
  }

  // Main result: in every reachable state, a call that meets no fault, in an isolate
  // with no unfinished call for its key, wins exactly when the lock of the key is
  // not live.  No finished call stands in its way.
  lemma {:induction false} NextCallWins(ttl: int, steps: seq<Step>, r: Req, i: Isolate, k: Key)
    requires var s := Run(ttl, Init, steps); r !in s.calls && Idle(s, i, k)
    ensures Run(ttl, Init, steps + Calls(r, i, k)) == AfterCall(ttl, Run(ttl, Init, steps), r, i, k)
  {
    var s := Run(ttl, Init, steps);
    RunKeepsClaimsOwned(ttl, steps);
    IdleHoldsNoClaim(s, i, k);
    RunConcat(ttl, Init, steps, Calls(r, i, k));
    CallRuns(ttl, s, r, i, k);
  }

  // The whole call, finally block included, leaves the isolate as idle as it was.
  lemma {:induction false} CallFinishes(ttl: int, steps: seq<Step>, r: Req, i: Isolate, k: Key)
    requires var s := Run(ttl, Init, steps); r !in s.calls && Idle(s, i, k)
    ensures var s, t := Run(ttl, Init, steps), Run(ttl, Init, steps + Calls(r, i, k) + [Finish(r)]);
      Idle(t, i, k) && r in t.calls && t.calls[r].pc == Done(!Blocked(LockOf(s, k), s.now)) &&
      t.now == s.now && t.calls.Keys == s.calls.Keys + {r} && k !in ClaimsOf(t, i)
  {
    NextCallWins(ttl, steps, r, i, k);
    Snoc(ttl, Init, steps + Calls(r, i, k), Finish(r));
    FinishEnds(ttl, Run(ttl, Init, steps), r, i, k);
  }

  lemma FinishEnds(ttl: int, s: State, r: Req, i: Isolate, k: Key)
    requires r !in s.calls && Idle(s, i, k)
    ensures var t := Apply(ttl, AfterCall(ttl, s, r, i, k), Finish(r));
      Idle(t, i, k) && r in t.calls && t.calls[r].pc == Done(!Blocked(LockOf(s, k), s.now)) &&
      t.now == s.now && t.calls.Keys == s.calls.Keys + {r} && k !in ClaimsOf(t, i)
  {
    EndIsIdle(ttl, s, AfterCall(ttl, s, r, i, k), r, i, k);
  }

  lemma EndIsIdle(ttl: int, s: State, u: State, r: Req, i: Isolate, k: Key)
    requires r !in s.calls && Idle(s, i, k) && r in u.calls && u.calls[r].isolate == i && u.calls[r].key == k
    requires u.calls[r].pc.Returning? && u.calls == s.calls[r := u.calls[r]]
    ensures var t := Apply(ttl, u, Finish(r));
      Idle(t, i, k) && t.calls == s.calls[r := u.calls[r].(pc := Done(u.calls[r].pc.ok))] && t.now == u.now &&
      k !in ClaimsOf(t, i) && t.locks == u.locks
  {
    var t := Apply(ttl, u, Finish(r));
    assert t.calls == s.calls[r := u.calls[r].(pc := Done(u.calls[r].pc.ok))];
    forall q ensures !Unfinished(t, q, i, k) { assert !Unfinished(s, q, i, k); }
  }

  // What /forget does to a key, some seconds later.
  function Forgetting(seconds: nat, k: Key): seq<Step> { [Tick(seconds), ForgetMarker(k), ForgetLock(k)] }

  lemma {:induction false} ForgetFrees(ttl: int, steps: seq<Step>, seconds: nat, i: Isolate, k: Key)
    requires Idle(Run(ttl, Init, steps), i, k)
    ensures var s, t := Run(ttl, Init, steps), Run(ttl, Init, steps + Forgetting(seconds, k));
      Idle(t, i, k) && t.calls == s.calls && LockOf(t, k) == None && t.now == s.now + seconds
  {
    RunConcat(ttl, Init, steps, Forgetting(seconds, k));
    var s := Run(ttl, Init, steps);
    RunThree(ttl, s, Tick(seconds), ForgetMarker(k), ForgetLock(k));
    var t := Run(ttl, Init, steps + Forgetting(seconds, k));
    assert t.calls == s.calls;
    forall q ensures !Unfinished(t, q, i, k) { assert !Unfinished(s, q, i, k); }
  }

  // A request, /forget, and the same request again in the same isolate, however
  // soon: the second one wins as well.
  lemma {:induction false} WinsAgainAfterForget(ttl: int, steps: seq<Step>, r: Req, q: Req, seconds: nat, i: Isolate,
      k: Key)
    requires var s := Run(ttl, Init, steps); r !in s.calls && q !in s.calls && r != q && Idle(s, i, k)
    ensures var all := steps + Calls(r, i, k) + [Finish(r)] + Forgetting(seconds, k) + Calls(q, i, k) + [Finish(q)];
      q in Run(ttl, Init, all).calls && Run(ttl, Init, all).calls[q].pc == Done(true)
  {
    CallFinishes(ttl, steps, r, i, k);
    var first := steps + Calls(r, i, k) + [Finish(r)];
    ForgetFrees(ttl, first, seconds, i, k);
    CallFinishes(ttl, first + Forgetting(seconds, k), q, i, k);
  }

  // While a call for a key is younger than its claim, no second one gets as far as
  // the lock in the same isolate.
  lemma {:induction false} OverlapIsRefused(ttl: int, steps: seq<Step>, r: Req, q: Req, seconds: nat, i: Isolate,
      k: Key)
    requires var s := Run(ttl, Init, steps); r !in s.calls && q !in s.calls && r != q && Idle(s, i, k)
    requires seconds < ClaimLife(ttl)
    ensures var s, t := Run(ttl, Init, steps),
                        Run(ttl, Init, steps + [Begin(r, i, k), Tick(seconds), Begin(q, i, k)]);
      q in t.calls && t.calls[q].pc == Done(false) && r in t.calls && t.calls[r].pc == Claiming &&
      t.locks == s.locks && t.log == s.log
  {
    var s := Run(ttl, Init, steps);
    RunKeepsClaimsOwned(ttl, steps);
    IdleHoldsNoClaim(s, i, k);
    RunConcat(ttl, Init, steps, [Begin(r, i, k), Tick(seconds), Begin(q, i, k)]);
    RunThree(ttl, s, Begin(r, i, k), Tick(seconds), Begin(q, i, k));
    var s1 := Apply(ttl, s, Begin(r, i, k));
    assert s1.calls == s.calls[r := Call(i, k, Claiming, 0)] && s1.claims[i][k] == s.now + ClaimLife(ttl);
  }

  // A call whose lock was granted but whose answer got lost.
  function LostCall(r: Req, i: Isolate, k: Key): seq<Step> { [Begin(r, i, k), LockClaim(r, true, false), Finish(r)] }

  lemma LostAnswer(ttl: int, s: State, r: Req, i: Isolate, k: Key)
    requires r !in s.calls && k !in ClaimsOf(s, i) && !Blocked(LockOf(s, k), s.now)
    ensures var t := Run(ttl, s, LostCall(r, i, k));
      t.calls == s.calls[r := Call(i, k, Done(false), |s.log|)] && t.locks == s.locks[k := s.now + LockTtl(ttl)] &&
      t.now == s.now
  {
    RunThree(ttl, s, Begin(r, i, k), LockClaim(r, true, false), Finish(r));
    var s1 := Apply(ttl, s, Begin(r, i, k));
    assert s1.calls == s.calls[r := Call(i, k, Claiming, 0)] && s1.locks == s.locks && s1.log == s.log;
    LostClaim(ttl, s1, r, i, k);
    var c := Call(i, k, Done(false), |s.log|);
    assert s1.calls[r := c] == s.calls[r := c];
  }

  lemma LostClaim(ttl: int, s: State, r: Req, i: Isolate, k: Key)
    requires r in s.calls && s.calls[r] == Call(i, k, Claiming, 0) && !Blocked(LockOf(s, k), s.now)
    ensures var t := Apply(ttl, Apply(ttl, s, LockClaim(r, true, false)), Finish(r));
      t.calls == s.calls[r := Call(i, k, Done(false), |s.log|)] && t.locks == s.locks[k := s.now + LockTtl(ttl)] &&
      t.now == s.now
  {
    var s2 := Apply(ttl, s, LockClaim(r, true, false));
    assert s2.calls == s.calls[r := Call(i, k, Returning(false), |s.log|)];
  }

  // It fails, and nobody else wins the key until its lock has run out.
  lemma {:induction false} LostAnswerBlocks(ttl: int, steps: seq<Step>, r: Req, q: Req, i: Isolate, j: Isolate, k: Key,
      seconds: nat)
    requires var s := Run(ttl, Init, steps);
      r !in s.calls && q !in s.calls && r != q && Idle(s, i, k) && Idle(s, j, k) && !Blocked(LockOf(s, k), s.now)
    ensures var t := Run(ttl, Init, steps + LostCall(r, i, k) + [Tick(seconds)] + Calls(q, j, k));
      r in t.calls && t.calls[r].pc == Done(false) &&
      q in t.calls && t.calls[q].pc == Returning(seconds >= LockTtl(ttl))
  {
    var s := Run(ttl, Init, steps);
    RunKeepsClaimsOwned(ttl, steps);
    IdleHoldsNoClaim(s, i, k);
    RunConcat(ttl, Init, steps, LostCall(r, i, k));
    LostAnswer(ttl, s, r, i, k);
    Snoc(ttl, Init, steps + LostCall(r, i, k), Tick(seconds));
    var u := Run(ttl, Init, steps + LostCall(r, i, k) + [Tick(seconds)]);
    forall x ensures !Unfinished(u, x, j, k) { assert !Unfinished(s, x, j, k); }
    NextCallWins(ttl, steps + LostCall(r, i, k) + [Tick(seconds)], q, j, k);
  }

  // A marker write that finds the store busy is tried three times in all: two busy
  // answers leave the outcome to the third, which wins only if it stores the marker.
  lemma {:induction false} BusyTwice(ttl: int, s: State, r: Req, applied: bool, last: Write)
    requires r in s.calls && s.calls[r].pc == Persisting(0)
    ensures var busy := Persist(r, applied, Busy);
      var t := Run(ttl, s, [busy, busy, Persist(r, applied, last)]);
      r in t.calls && t.calls[r].pc == if last == Stored then Returning(true) else Clearing
  {
    var busy := Persist(r, applied, Busy);
    RunThree(ttl, s, busy, busy, Persist(r, applied, last));
    assert Apply(ttl, s, busy).calls == s.calls[r := s.calls[r].(pc := Persisting(1))];
    var s2 := Apply(ttl, Apply(ttl, s, busy), busy);
    assert s2.calls == s.calls[r := s.calls[r].(pc := Persisting(2))];
  }

  // The steps of a call whose write fails, to its end.
  function Failing(r: Req, i: Isolate, k: Key): seq<Step> {
    [Begin(r, i, k), LockClaim(r, true, true), Persist(r, false, Broken)]
  }

  // A failed call gives its lock back, so the next one wins at once.
  lemma {:induction false} FailedCallFreesLock(ttl: int, steps: seq<Step>, r: Req, i: Isolate, k: Key)
    requires var s := Run(ttl, Init, steps); r !in s.calls && Idle(s, i, k) && !Blocked(LockOf(s, k), s.now)
    ensures var t := Run(ttl, Init, steps + Failing(r, i, k) + [Compensate(r, true)] + [Finish(r)]);
      r in t.calls && t.calls[r].pc == Done(false) && Idle(t, i, k) && LockOf(t, k) == None
  {
    var s := Run(ttl, Init, steps);
    RunKeepsClaimsOwned(ttl, steps);
    IdleHoldsNoClaim(s, i, k);
    RunConcat(ttl, Init, steps, Failing(r, i, k));
    RunThree(ttl, s, Begin(r, i, k), LockClaim(r, true, true), Persist(r, false, Broken));
    FailingClears(ttl, s, r, i, k);
    Snoc(ttl, Init, steps + Failing(r, i, k), Compensate(r, true));
    Snoc(ttl, Init, steps + Failing(r, i, k) + [Compensate(r, true)], Finish(r));
    ClearEnds(ttl, s, Run(ttl, Init, steps + Failing(r, i, k)), r, i, k);
  }

  lemma FailingClears(ttl: int, s: State, r: Req, i: Isolate, k: Key)
    requires r !in s.calls && k !in ClaimsOf(s, i) && !Blocked(LockOf(s, k), s.now)
    ensures var t := Apply(ttl, Apply(ttl, Apply(ttl, s, Begin(r, i, k)), LockClaim(r, true, true)),
                           Persist(r, false, Broken));
      t.calls == s.calls[r := Call(i, k, Clearing, |s.log|)]
  {
    var s1 := Apply(ttl, s, Begin(r, i, k));
    assert s1.calls == s.calls[r := Call(i, k, Claiming, 0)] && s1.locks == s.locks && s1.now == s.now;
    var s2 := Apply(ttl, s1, LockClaim(r, true, true));
    assert s2.calls == s.calls[r := Call(i, k, Persisting(0), |s.log|)];
  }

  lemma ClearEnds(ttl: int, s: State, u: State, r: Req, i: Isolate, k: Key)
    requires r !in s.calls && Idle(s, i, k) && u.calls == s.calls[r := Call(i, k, Clearing, |s.log|)]
    ensures var t := Apply(ttl, Apply(ttl, u, Compensate(r, true)), Finish(r));
      r in t.calls && t.calls[r].pc == Done(false) && Idle(t, i, k) && LockOf(t, k) == None
  {
    var v := Apply(ttl, u, Compensate(r, true));
    assert v.calls == s.calls[r := Call(i, k, Returning(false), |s.log|)];
    EndIsIdle(ttl, s, v, r, i, k);
  }

  // ---------------------------------------------------------------- when it fails

  // The steps of a call whose marker write took effect but reported a failure,
  // up to the point where its compensating clear is under way.
  function FailingCall(r: Req, i: Isolate, k: Key): seq<Step> {
    [Begin(r, i, k), LockClaim(r, true, true), Persist(r, true, Broken)]
  }

  lemma FailingCallRuns(ttl: int, r: Req, i: Isolate, k: Key)
    ensures var t := Run(ttl, Init, FailingCall(r, i, k));
            t.now == 0 && t.calls == map[r := Call(i, k, Clearing, 0)] && t.claims.Keys == {i} &&
            t.log == [Claimed(r, k, 0, LockTtl(ttl))] && t.locks == map[k := LockTtl(ttl)]
  {
    RunThree(ttl, Init, Begin(r, i, k), LockClaim(r, true, true), Persist(r, true, Broken));
    var s1 := Apply(ttl, Init, Begin(r, i, k));
    var s2 := Apply(ttl, s1, LockClaim(r, true, true));
    assert s2.log == [Claimed(r, k, 0, LockTtl(ttl))];
    assert Apply(ttl, s2, Persist(r, true, Broken)).calls == map[r := Call(i, k, Clearing, 0)];
  }

  function OverlapLog(k: Key): seq<Event> {
    [Claimed(0, k, 0, 600), Forgot(k, 0), Claimed(1, k, 0, 600), Won(1, k, 0),
     Compensated(0, k, 0), Claimed(2, k, 0, 600), Won(2, k, 0)]
  }

  lemma OverlapLogFacts(k: Key)
    ensures var log := OverlapLog(k);
            Timely(log) && !ForgetBetween(log, 2, 5, k) && Explained(log, 2, 5, k)
  {
    var log := OverlapLog(k);
    assert log[1].Forgot? && ForgetBetween(log, 0, 2, k);
    assert Straddles(log, 0, 2, 4, 5, k) && Explained(log, 0, 2, k);
  }

  // Two winners at the same instant, although every compensating clear is
  // timely and no /forget lies between the two claims: a /forget inside the
  // failing call's span frees its lock, a second call takes it, and the late
  // compensating clear then removes the second call's lock.
  lemma ForgetInsideFailureAdmitsTwo(k: Key) returns (steps: seq<Step>)
    ensures var log := Run(600, Init, steps).log;
            log == OverlapLog(k) && Timely(log) && !ForgetBetween(log, 2, 5, k) && Explained(log, 2, 5, k)
  {
    FailingThenForget(k);
    steps := TwoMoreCalls(FailingCall(0, 0, k) + [ForgetLock(k)], k);
    assert Run(600, Init, steps).log == OverlapLog(k);
    OverlapLogFacts(k);
  }

  lemma FailingThenForget(k: Key)
    ensures var s := Run(600, Init, FailingCall(0, 0, k) + [ForgetLock(k)]);
            ReadyToClear(s, k) && s.now == 0 && s.log == [Claimed(0, k, 0, 600), Forgot(k, 0)]
  {
    FailingCallRuns(600, 0, 0, k);
    Snoc(600, Init, FailingCall(0, 0, k), ForgetLock(k));
  }

  // Timeliness is needed too: a compensating clear that outlives its own lock
  // frees the next winner's lock, without any /forget.
  lemma LateClearAdmitsTwo(k: Key) returns (steps: seq<Step>)
    ensures var s := Run(600, Init, steps);
            !Timely(s.log) && s.log == [Claimed(0, k, 0, 600), Claimed(1, k, 600, 1200), Won(1, k, 600),
                                        Compensated(0, k, 600), Claimed(2, k, 600, 1200), Won(2, k, 600)]
  {
    FailingThenTick(k);
    steps := TwoMoreCalls(FailingCall(0, 0, k) + [Tick(600)], k);
    var log := Run(600, Init, steps).log;
    assert SameFailedCall(log[0], log[3]);
  }

  lemma FailingThenTick(k: Key)
    ensures var s := Run(600, Init, FailingCall(0, 0, k) + [Tick(600)]);
            ReadyToClear(s, k) && s.now == 600 && s.log == [Claimed(0, k, 0, 600)]
  {
    FailingCallRuns(600, 0, 0, k);
    Snoc(600, Init, FailingCall(0, 0, k), Tick(600));
  }

  lemma {:induction false} RunThenCall(first: seq<Step>, s: State, r: Req, i: Isolate, k: Key)
    requires s == Run(600, Init, first) && r !in s.calls && i !in s.claims
    ensures Run(600, Init, first + Calls(r, i, k)) == AfterCall(600, s, r, i, k)
  {
    RunConcat(600, Init, first, Calls(r, i, k));
    CallRuns(600, s, r, i, k);
  }

  // While call 0 is still to clear: call 1 wins, call 0 clears, call 2 wins.
  lemma {:induction false} TwoMoreCalls(first: seq<Step>, k: Key) returns (steps: seq<Step>)
    requires ReadyToClear(Run(600, Init, first), k)
    ensures var s := Run(600, Init, first);
            Run(600, Init, steps).log == s.log +
              [Claimed(1, k, s.now, s.now + 600), Won(1, k, s.now), Compensated(0, k, s.now),
               Claimed(2, k, s.now, s.now + 600), Won(2, k, s.now)]
  {
    var cleared := OneMoreCall(first, k);
    LastCall(cleared, Run(600, Init, first), k);
    steps := cleared + Calls(2, 2, k);
  }

  lemma {:induction false} LastCall(cleared: seq<Step>, s: State, k: Key)
    requires ReadyToClear(s, k) && Run(600, Init, cleared) == AfterClear(s, k)
    ensures Run(600, Init, cleared + Calls(2, 2, k)).log == s.log +
              [Claimed(1, k, s.now, s.now + 600), Won(1, k, s.now), Compensated(0, k, s.now),
               Claimed(2, k, s.now, s.now + 600), Won(2, k, s.now)]
  {
    SecondWin(s, k);
    RunThenCall(cleared, AfterClear(s, k), 2, 2, k);
  }

  lemma {:induction false} OneMoreCall(first: seq<Step>, k: Key) returns (steps: seq<Step>)
    requires ReadyToClear(Run(600, Init, first), k)
    ensures Run(600, Init, steps) == AfterClear(Run(600, Init, first), k)
  {
    var upto := first + Calls(1, 1, k);
    RunThenCall(first, Run(600, Init, first), 1, 1, k);
    steps := upto + [Compensate(0, true)];
    Snoc(600, Init, upto, Compensate(0, true));
  }

  lemma SecondWin(s: State, k: Key)
    requires ReadyToClear(s, k)
    ensures AfterCall(600, AfterClear(s, k), 2, 2, k).log == s.log +
              [Claimed(1, k, s.now, s.now + 600), Won(1, k, s.now), Compensated(0, k, s.now),
               Claimed(2, k, s.now, s.now + 600), Won(2, k, s.now)]
  {
  }

  predicate ReadyToClear(s: State, k: Key) {
    s.calls == map[0 := Call(0, k, Clearing, 0)] && s.claims.Keys == {0} && !Blocked(LockOf(s, k), s.now)
  }

  // After call 1 won and call 0 removed its lock.
  function AfterClear(s: State, k: Key): (t: State)
    requires ReadyToClear(s, k)
    ensures t == Apply(600, AfterCall(600, s, 1, 1, k), Compensate(0, true))
    ensures t.now == s.now && 2 !in t.calls && 2 !in t.claims && k !in t.locks
    ensures t.log == s.log + [Claimed(1, k, s.now, s.now + 600), Won(1, k, s.now), Compensated(0, k, s.now)]
  {
    Apply(600, AfterCall(600, s, 1, 1, k), Compensate(0, true))
  }

  // ---------------------------------------------------------------- markers and locks

  predicate NotErased(log: seq<Event>, from: nat, k: Key) {
    forall e: nat :: from < e < |log| && log[e].Erased? ==> log[e].key != k
  }

  // A winner's marker is in KV for a full ttl from its write, unless /forget erases it.
  ghost predicate MarkersHeld(ttl: int, s: State) {
    forall w: nat :: w < |s.log| && s.log[w].Won? && NotErased(s.log, w, s.log[w].key) ==>
      s.log[w].key in s.markers && s.markers[s.log[w].key] >= s.log[w].time + ttl
  }

  lemma MarkersOnlyGrow(ttl: int, s: State, a: Step, k: Key)
    requires k in s.markers && a != ForgetMarker(k)
    ensures var t := Apply(ttl, s, a);
            k in t.markers && (t.markers[k] == s.markers[k] || t.markers[k] == s.now + ttl)
  {
  }

  lemma LogOnlyGrows(ttl: int, s: State, a: Step)
    ensures var t := Apply(ttl, s, a);
            s.log <= t.log && (a.ForgetMarker? ==> t.log == s.log + [Erased(a.key, s.now)])
    ensures var t := Apply(ttl, s, a);
            forall w: nat :: |s.log| <= w < |t.log| && t.log[w].Won? ==>
              t.log[w].time == s.now && t.log[w].key in t.markers && t.markers[t.log[w].key] == s.now + ttl
  {
  }

  lemma StepKeepsMarkers(ttl: int, s: State, a: Step)
    requires ttl >= 1 && Clocked(s.log, s.now) && MarkersHeld(ttl, s)
    ensures MarkersHeld(ttl, Apply(ttl, s, a))
  {
    var t := Apply(ttl, s, a);
    LogOnlyGrows(ttl, s, a);
    forall w: nat | w < |t.log| && t.log[w].Won? && NotErased(t.log, w, t.log[w].key)
      ensures t.log[w].key in t.markers && t.markers[t.log[w].key] >= t.log[w].time + ttl
    {
      if w < |s.log| {
        assert NotErased(s.log, w, s.log[w].key) by {
          forall e: nat | w < e < |s.log| && s.log[e].Erased? ensures s.log[e].key != s.log[w].key {
            assert t.log[e] == s.log[e];
          }
        }
        if a.ForgetMarker? { assert t.log[|s.log|] == Erased(a.key, s.now); }
        MarkersOnlyGrow(ttl, s, a, s.log[w].key);
      }
    }
  }

  lemma {:induction false} RunKeepsMarkers(ttl: int, steps: seq<Step>)
    requires ttl >= 1
    ensures MarkersHeld(ttl, Run(ttl, Init, steps))
    decreases |steps|
  {
    if steps != [] {
      RunKeepsInv(ttl, steps[..|steps| - 1]);
      RunKeepsMarkers(ttl, steps[..|steps| - 1]);
      StepKeepsMarkers(ttl, Run(ttl, Init, steps[..|steps| - 1]), steps[|steps| - 1]);
    }
  }

  // Whenever the lock that a finished winner took is live, its marker is in KV
  // for /forget to find, unless /forget erased it since.
  lemma {:induction false} LiveLockHasMarker(ttl: int, steps: seq<Step>, w: nat)
    requires ttl >= 1
    requires var s := Run(ttl, Init, steps);
      w < |s.log| && s.log[w].Won? && NotErased(s.log, w, s.log[w].key)
    ensures var s := Run(ttl, Init, steps);
      var k := s.log[w].key;
      Owns(s, s.log[w].req, w, k) &&
      (s.now < s.log[s.calls[s.log[w].req].at].exp ==> k in s.markers && s.markers[k] >= s.now)
  {
    RunKeepsInv(ttl, steps);
    RunKeepsMarkers(ttl, steps);
  }
}
