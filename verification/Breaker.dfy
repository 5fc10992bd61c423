// The circuit breaker of /notify: a failure count per channel in KV, consulted
// before a delivery and updated after it.
module Breaker {
  import opened Wrappers
  import opened Kv

  datatype Config = Config(threshold: int, cooldown: int, maxRetry: int)

  predicate Sane(cfg: Config) { cfg.threshold >= 1 && cfg.cooldown >= 1 }

  datatype State = State(count: int, openUntil: int)

  type Store = map<string, Entry<State>>

  // One answer of the remote end; an aborted fetch counts as an HTTP failure.
  datatype Answer = Ok | HttpFailure | Throws

  datatype Outcome = Refused | Unconfigured | Delivered | GaveUp | Raised

  function Attempts(cfg: Config): nat { Max(1, cfg.maxRetry) }

  // How many of the first n answers come before one that is not an HTTP failure.
  function FailuresFirst(answers: seq<Answer>, n: nat): (i: nat)
    requires n <= |answers|
    ensures i <= n && (forall k :: 0 <= k < i ==> answers[k].HttpFailure?) && (i < n ==> !answers[i].HttpFailure?)
  {
    if n == 0 || !answers[0].HttpFailure? then 0 else 1 + FailuresFirst(answers[1..], n - 1)
  }

  function Current(s: Store, key: string, now: int): State {
    if key in Visible(s, now) then Visible(s, now)[key] else State(0, 0)
  }

  predicate Open(st: State, now: int) { st.openUntil != 0 && st.openUntil > now }

  predicate Allowed(cfg: Config, st: State, now: int) { !Open(st, now) && st.count < cfg.threshold }

  function Save(cfg: Config, s: Store, key: string, st: State, now: int): Store {
    s[key := Entry(st, ExpiryAfter(Some(cfg.cooldown * 2), now))]
  }

  // A refusal by count opens the breaker once more.
  function AfterCheck(cfg: Config, s: Store, key: string, now: int): Store {
    var st := Current(s, key, now);
    var s1 := Swept(s, key, now);
    if !Open(st, now) && st.count >= cfg.threshold
    then Save(cfg, s1, key, State(st.count, now + cfg.cooldown), now) else s1
  }

  function Noted(cfg: Config, st: State, success: bool, now: int): State {
    if success then State(0, 0)
    else State(st.count + 1,
               if st.count + 1 >= cfg.threshold then now + cfg.cooldown
               else if Open(st, now) then st.openUntil else 0)
  }

  function AfterNote(cfg: Config, s: Store, key: string, success: bool, now: int): Store {
    Save(cfg, Swept(s, key, now), key, Noted(cfg, Current(s, key, now), success, now), now)
  }

  class Channel {
    const kv: MemoryKv<State>
    const key: string
    const cfg: Config

    constructor (kv: MemoryKv<State>, key: string, cfg: Config)
      ensures this.kv == kv && this.key == key && this.cfg == cfg
    {
      this.kv, this.key, this.cfg := kv, key, cfg;
    }

    method BreakerState(now: int) returns (st: State)
      modifies kv
      ensures st == Current(old(kv.store), key, now) && kv.store == Swept(old(kv.store), key, now)
    {
      var raw := kv.Get(key, now);
      st := if raw.Some? then raw.value else State(0, 0);
    }

    method BreakerAllows(now: int) returns (ok: bool)
      requires Sane(cfg)
      modifies kv
      ensures ok == Allowed(cfg, Current(old(kv.store), key, now), now)
      ensures kv.store == AfterCheck(cfg, old(kv.store), key, now)
    {
      var st := BreakerState(now);
      if st.openUntil != 0 && st.openUntil > now { return false; }
      if st.count >= cfg.threshold {
        var until := if st.openUntil != 0 && st.openUntil > now then st.openUntil else now + cfg.cooldown;
        kv.Put(key, State(st.count, until), Some(cfg.cooldown * 2), now);
        return false;
      }
      ok := true;
    }

    method BreakerNote(success: bool, now: int)
      modifies kv
      ensures kv.store == AfterNote(cfg, old(kv.store), key, success, now)
    {
      var st := BreakerState(now);
      if success {
        st := State(0, 0);
      } else {
        st := st.(count := st.count + 1);
        if st.count >= cfg.threshold {
          st := st.(openUntil := now + cfg.cooldown);
        } else {
          st := st.(openUntil := if st.openUntil != 0 && st.openUntil > now then st.openUntil else 0);
        }
      }
      kv.Put(key, st, Some(cfg.cooldown * 2), now);
    }

    // Fetch until an answer is no HTTP failure, at most max(1, maxRetry) times.
    method SendWithRetry(answers: seq<Answer>, now: int) returns (r: Outcome, fetches: nat)
      requires |answers| >= Attempts(cfg)
      modifies kv
      ensures var i := FailuresFirst(answers, Attempts(cfg));
        fetches == Min(i + 1, Attempts(cfg)) &&
        r == (if i == Attempts(cfg) then GaveUp else if answers[i].Ok? then Delivered else Raised)
      ensures kv.store == if r.GaveUp? then AfterNote(cfg, old(kv.store), key, false, now) else old(kv.store)
    {
      var attempt := 0;
      var maxAttempts := Attempts(cfg);
      while attempt < maxAttempts
        invariant 0 <= attempt < maxAttempts && kv.store == old(kv.store)
        invariant FailuresFirst(answers, maxAttempts) ==
                  attempt + FailuresFirst(answers[attempt..], maxAttempts - attempt)
      {
        var resp := answers[attempt];
        fetches := attempt + 1;
        if resp.Throws? { return Raised, fetches; }
        if resp.Ok? { return Delivered, fetches; }
        assert answers[attempt..][1..] == answers[attempt + 1..];
        attempt := attempt + 1;
        if attempt >= cfg.maxRetry {
          BreakerNote(false, now);
          return GaveUp, fetches;
        }
      }
      assert false;     // the last failing attempt has already given up
    }

    method Deliver(d: Delivery) returns (r: Outcome, fetches: nat)
      requires Sane(cfg) && |d.answers| >= Attempts(cfg)
      modifies kv
      ensures Effect(r, fetches, kv.store) == Delivering(cfg, old(kv.store), key, d)
    {
      var ok := BreakerAllows(d.start);
      if !ok { return Refused, 0; }
      if !d.configured { return Unconfigured, 0; }
      r, fetches := SendWithRetry(d.answers, d.end);
      if r.Delivered? { BreakerNote(true, d.end); }
    }
  }

  // A delivery: when it starts, when its last answer is in, whether there is a
  // webhook or a mail service to send it to, and the answers of that end.
  datatype Delivery = Delivery(start: int, end: int, configured: bool, answers: seq<Answer>)

  datatype Effect = Effect(outcome: Outcome, fetches: nat, store: Store)

  function Delivering(cfg: Config, s: Store, key: string, d: Delivery): Effect
    requires |d.answers| >= Attempts(cfg)
  {
    var s1 := AfterCheck(cfg, s, key, d.start);
    var i := FailuresFirst(d.answers, Attempts(cfg));
    if !Allowed(cfg, Current(s, key, d.start), d.start) then Effect(Refused, 0, s1)
    else if !d.configured then Effect(Unconfigured, 0, s1)
    else if i == Attempts(cfg) then Effect(GaveUp, i, AfterNote(cfg, s1, key, false, d.end))
    else if d.answers[i].Ok? then Effect(Delivered, i + 1, AfterNote(cfg, s1, key, true, d.end))
    else Effect(Raised, i + 1, s1)
  }

  // ---------------------------------------------------------------- runs of deliveries

  // What separates epochs: a success, or the expiry of the stored state.
  datatype Event = Failed(fetches: nat) | Reset

  datatype Run = Run(store: Store, now: int, log: seq<Event>)

  predicate Expired(s: Store, key: string, now: int) { key in s && !Live(s[key], now) }

  function Resets(s: Store, key: string, now: int): seq<Event> { if Expired(s, key, now) then [Reset] else [] }

  function Next(cfg: Config, key: string, r: Run, d: Delivery): Run
    requires |d.answers| >= Attempts(cfg)
  {
    var s1 := AfterCheck(cfg, r.store, key, d.start);
    var log := r.log + Resets(r.store, key, d.start);
    var e := Delivering(cfg, r.store, key, d);
    match e.outcome
    case Refused => Run(e.store, d.start, log)
    case Unconfigured => Run(e.store, d.start, log)
    case Delivered => Run(e.store, d.end, log + Resets(s1, key, d.end) + [Reset])
    case GaveUp => Run(e.store, d.end, log + Resets(s1, key, d.end) + [Failed(e.fetches)])
    case Raised => Run(e.store, d.end, log)
  }

  predicate Fits(cfg: Config, now: int, d: Delivery) { now <= d.start <= d.end && |d.answers| >= Attempts(cfg) }

  ghost predicate Reached(cfg: Config, key: string, r: Run, ds: seq<Delivery>)
    decreases |ds|
  {
    if ds == [] then r == Run(map[], r.now, []) && r.now >= 0
    else
      var n := |ds| - 1;
      exists q :: Reached(cfg, key, q, ds[..n]) && Fits(cfg, q.now, ds[n]) && r == Next(cfg, key, q, ds[n])
  }

  // The failures since the last reset.
  function Trailing(log: seq<Event>): nat {
    if log == [] || log[|log| - 1].Reset? then 0 else 1 + Trailing(log[..|log| - 1])
  }

  ghost predicate LogOk(cfg: Config, log: seq<Event>) {
    (forall i :: 0 <= i <= |log| ==> Trailing(log[..i]) <= cfg.threshold) &&
    forall i :: 0 <= i < |log| && log[i].Failed? ==> log[i].fetches == Attempts(cfg)
  }

  // The stored state counts the failures of its epoch, is open only at the
  // threshold, and then expires one cooldown after it closes.
  ghost predicate StateOk(cfg: Config, e: Entry<State>, log: seq<Event>) {
    e.exp.Some? && e.exp.value > 0 && e.value.count == Trailing(log) <= cfg.threshold &&
    if e.value.count == cfg.threshold then e.exp.value == e.value.openUntil + cfg.cooldown else e.value.openUntil == 0
  }

  ghost predicate Inv(cfg: Config, key: string, r: Run) {
    r.now >= 0 && LogOk(cfg, r.log) &&
    if key in r.store then StateOk(cfg, r.store[key], r.log) else Trailing(r.log) == 0
  }

  lemma {:induction false} Longer(cfg: Config, log: seq<Event>, e: Event)
    requires LogOk(cfg, log) && (e.Failed? ==> e.fetches == Attempts(cfg) && Trailing(log) < cfg.threshold)
    requires cfg.threshold >= 1
    ensures LogOk(cfg, log + [e]) && Trailing(log + [e]) == if e.Reset? then 0 else Trailing(log) + 1
  {
    assert (log + [e])[..|log|] == log && (log + [e])[..|log| + 1] == log + [e];
    forall i | 0 <= i <= |log| ensures Trailing((log + [e])[..i]) <= cfg.threshold {
      assert (log + [e])[..i] == log[..i];
    }
  }

  // What a reader finds is what the log says, with an expired state as a reset.
  lemma ReadOk(cfg: Config, key: string, r: Run, now: int)
    requires Sane(cfg) && Inv(cfg, key, r) && now >= r.now
    ensures var log := r.log + Resets(r.store, key, now);
      Inv(cfg, key, Run(Swept(r.store, key, now), now, log)) &&
      Current(r.store, key, now).count == Trailing(log)
  {
    if Expired(r.store, key, now) {
      Longer(cfg, r.log, Reset);
    } else {
      assert r.log + [] == r.log;
    }
  }

  lemma CheckKeepsInv(cfg: Config, key: string, r: Run, now: int)
    requires Sane(cfg) && Inv(cfg, key, r) && now >= r.now
    ensures Inv(cfg, key, Run(AfterCheck(cfg, r.store, key, now), now, r.log + Resets(r.store, key, now)))
  {
    ReadOk(cfg, key, r, now);
  }

  lemma NoteKeepsInv(cfg: Config, key: string, r: Run, success: bool, now: int)
    requires Sane(cfg) && Inv(cfg, key, r) && now >= r.now
    requires success || Trailing(r.log + Resets(r.store, key, now)) < cfg.threshold
    ensures var log := r.log + Resets(r.store, key, now);
      var e := if success then Reset else Failed(Attempts(cfg));
      Inv(cfg, key, Run(AfterNote(cfg, r.store, key, success, now), now, log + [e]))
  {
    ReadOk(cfg, key, r, now);
    Longer(cfg, r.log + Resets(r.store, key, now), if success then Reset else Failed(Attempts(cfg)));
  }

  lemma CheckedNoteKeepsInv(cfg: Config, key: string, r: Run, d: Delivery, success: bool)
    requires Sane(cfg) && Inv(cfg, key, r) && r.now <= d.start <= d.end
    requires Allowed(cfg, Current(r.store, key, d.start), d.start)
    ensures var s1, log := AfterCheck(cfg, r.store, key, d.start), r.log + Resets(r.store, key, d.start);
      var e := if success then Reset else Failed(Attempts(cfg));
      Inv(cfg, key, Run(AfterNote(cfg, s1, key, success, d.end), d.end, log + Resets(s1, key, d.end) + [e]))
  {
    ReadOk(cfg, key, r, d.start);
    CheckKeepsInv(cfg, key, r, d.start);
    var q := Run(AfterCheck(cfg, r.store, key, d.start), d.start, r.log + Resets(r.store, key, d.start));
    ReadOk(cfg, key, q, d.end);
    NoteKeepsInv(cfg, key, q, success, d.end);
  }

  lemma LaterInv(cfg: Config, key: string, r: Run, now: int)
    requires Inv(cfg, key, r) && now >= r.now
    ensures Inv(cfg, key, r.(now := now))
  {
  }

  lemma NextKeepsInv(cfg: Config, key: string, r: Run, d: Delivery)
    requires Sane(cfg) && Inv(cfg, key, r) && Fits(cfg, r.now, d)
    ensures Inv(cfg, key, Next(cfg, key, r, d))
  {
    match Delivering(cfg, r.store, key, d).outcome
    case Delivered => CheckedNoteKeepsInv(cfg, key, r, d, true);
    case GaveUp => CheckedNoteKeepsInv(cfg, key, r, d, false);
    case _ =>
      CheckKeepsInv(cfg, key, r, d.start);
      LaterInv(cfg, key, Run(AfterCheck(cfg, r.store, key, d.start), d.start, r.log + Resets(r.store, key, d.start)),
               d.end);
  }

  lemma {:induction false} ReachedInv(cfg: Config, key: string, r: Run, ds: seq<Delivery>)
    requires Sane(cfg) && Reached(cfg, key, r, ds)
    ensures Inv(cfg, key, r)
    decreases |ds|
  {
    if ds != [] {
      var n := |ds| - 1;
      var q :| Reached(cfg, key, q, ds[..n]) && Fits(cfg, q.now, ds[n]) && r == Next(cfg, key, q, ds[n]);
      ReachedInv(cfg, key, q, ds[..n]);
      NextKeepsInv(cfg, key, q, ds[n]);
    }
  }

  // ---------------------------------------------------------------- main results

  predicate NoReset(log: seq<Event>) { forall i :: 0 <= i < |log| ==> log[i].Failed? }

  function Fetches(log: seq<Event>): nat {
    if log == [] then 0 else Fetches(log[..|log| - 1]) + if log[|log| - 1].Failed? then log[|log| - 1].fetches else 0
  }

  lemma {:induction false} EpochIsTrailing(cfg: Config, log: seq<Event>, i: nat)
    requires i <= |log| && NoReset(log[i..])
    requires forall k :: 0 <= k < |log| && log[k].Failed? ==> log[k].fetches == Attempts(cfg)
    ensures |log| - i <= Trailing(log) && Fetches(log[i..]) == (|log| - i) * Attempts(cfg)
    decreases |log|
  {
    if i < |log| {
      var n := |log| - 1;
      EpochTail(log, i);
      EpochIsTrailing(cfg, log[..n], i);
      assert (n + 1 - i) * Attempts(cfg) == (n - i) * Attempts(cfg) + Attempts(cfg);
    }
  }

  lemma {:induction false} EpochTail(log: seq<Event>, i: nat)
    requires i < |log| && NoReset(log[i..])
    ensures var n := |log| - 1;
      NoReset(log[..n][i..]) && log[n].Failed? && Trailing(log) == Trailing(log[..n]) + 1 &&
      Fetches(log[i..]) == Fetches(log[..n][i..]) + log[n].fetches
  {
    var n := |log| - 1;
    assert log[i..][n - i] == log[n];
    assert log[i..][..n - i] == log[..n][i..];
  }

  // Between two resets at most `threshold` deliveries end in an HTTP failure,
  // and together they make at most threshold * max(1, maxRetry) fetches.
  lemma {:induction false} EpochsAreBounded(cfg: Config, key: string, r: Run, ds: seq<Delivery>, i: nat, j: nat)
    requires Sane(cfg) && Reached(cfg, key, r, ds)
    requires i <= j <= |r.log| && NoReset(r.log[i..j])
    ensures j - i <= cfg.threshold && Fetches(r.log[i..j]) <= cfg.threshold * Attempts(cfg)
  {
    ReachedInv(cfg, key, r, ds);
    assert r.log[..j][i..] == r.log[i..j];
    EpochIsTrailing(cfg, r.log[..j], i);
    Scaled(j - i, cfg.threshold, Attempts(cfg));
  }

  lemma Scaled(a: int, b: int, n: nat)
    requires a <= b
    ensures a * n <= b * n
  {
  }

  // A delivery is refused exactly while the count is at the threshold; being
  // open never says more than that.
  lemma {:induction false} RefusedIffFull(cfg: Config, key: string, r: Run, ds: seq<Delivery>, d: Delivery)
    requires Sane(cfg) && Reached(cfg, key, r, ds) && Fits(cfg, r.now, d)
    ensures var st := Current(r.store, key, d.start);
      (Open(st, d.start) ==> st.count >= cfg.threshold) &&
      (Delivering(cfg, r.store, key, d).outcome.Refused? <==> st.count >= cfg.threshold) &&
      (Delivering(cfg, r.store, key, d).outcome.Refused? || !d.configured <==>
         Delivering(cfg, r.store, key, d).fetches == 0)
  {
    ReachedInv(cfg, key, r, ds);
  }

  // Once tripped, the breaker lets a delivery through exactly when its state has
  // expired: the cooldown alone never half-opens it.
  lemma {:induction false} OnlyExpiryReopens(cfg: Config, key: string, r: Run, ds: seq<Delivery>, d: Delivery)
    requires Sane(cfg) && Reached(cfg, key, r, ds) && Fits(cfg, r.now, d)
    requires key in r.store && r.store[key].value.count >= cfg.threshold
    ensures Delivering(cfg, r.store, key, d).outcome.Refused? <==>
            d.start <= r.store[key].value.openUntil + cfg.cooldown
  {
    ReachedInv(cfg, key, r, ds);
  }

  // The state at the threshold, last asked about at time `last`.
  predicate Tripped(cfg: Config, s: Store, key: string, last: int) {
    key in s && s[key].value.count >= cfg.threshold && last >= 0 &&
    s[key].value.openUntil >= last && s[key].exp == Some(s[key].value.openUntil + cfg.cooldown)
  }

  // Requests whose gaps never exceed the cooldown.
  predicate Steady(cfg: Config, last: int, ds: seq<Delivery>)
    decreases |ds|
  {
    ds == [] || (last <= ds[0].start <= last + cfg.cooldown && Steady(cfg, ds[0].start, ds[1..]))
  }

  predicate Answered(cfg: Config, ds: seq<Delivery>) {
    forall i :: 0 <= i < |ds| ==> |ds[i].answers| >= Attempts(cfg)
  }

  function AfterAll(cfg: Config, s: Store, key: string, ds: seq<Delivery>): Store
    requires Answered(cfg, ds)
    decreases |ds|
  {
    if ds == [] then s else AfterAll(cfg, Delivering(cfg, s, key, ds[0]).store, key, ds[1..])
  }

  function Outcomes(cfg: Config, s: Store, key: string, ds: seq<Delivery>): seq<Outcome>
    requires Answered(cfg, ds)
    decreases |ds|
  {
    if ds == [] then []
    else var e := Delivering(cfg, s, key, ds[0]); [e.outcome] + Outcomes(cfg, e.store, key, ds[1..])
  }

  lemma TrippedAgain(cfg: Config, s: Store, key: string, last: int, d: Delivery)
    requires Sane(cfg) && Tripped(cfg, s, key, last) && last <= d.start <= last + cfg.cooldown
    requires |d.answers| >= Attempts(cfg)
    ensures var e := Delivering(cfg, s, key, d);
      e.outcome == Refused && Tripped(cfg, e.store, key, d.start)
  {
    assert Live(s[key], d.start);
  }

  // A refusal puts the state back, so a steady stream of requests keeps a
  // tripped breaker shut for ever, however well the remote end has recovered.
  lemma {:induction false} BreakerStaysShut(cfg: Config, s: Store, key: string, last: int, ds: seq<Delivery>)
    requires Sane(cfg) && Tripped(cfg, s, key, last) && Steady(cfg, last, ds) && Answered(cfg, ds)
    ensures Outcomes(cfg, s, key, ds) == seq(|ds|, i => Refused)
    ensures Tripped(cfg, AfterAll(cfg, s, key, ds), key, if ds == [] then last else ds[|ds| - 1].start)
    decreases |ds|
  {
    if ds != [] {
      var e := Delivering(cfg, s, key, ds[0]);
      TrippedAgain(cfg, s, key, last, ds[0]);
      BreakerStaysShut(cfg, e.store, key, ds[0].start, ds[1..]);
    }
  }

  lemma TrippedByNote(cfg: Config, s: Store, key: string, now: int)
    requires Sane(cfg) && now >= 0
    ensures var t := AfterNote(cfg, s, key, false, now);
      key in t && (t[key].value.count == cfg.threshold ==> Tripped(cfg, t, key, now))
  {
  }

  // The failure that reaches the threshold trips the breaker in this sense.
  lemma {:induction false} LastFailureTrips(cfg: Config, key: string, r: Run, ds: seq<Delivery>, d: Delivery)
    requires Sane(cfg) && Reached(cfg, key, r, ds) && Fits(cfg, r.now, d)
    requires Delivering(cfg, r.store, key, d).outcome.GaveUp?
    ensures var s := Delivering(cfg, r.store, key, d).store;
      key in s && (s[key].value.count == cfg.threshold ==> Tripped(cfg, s, key, d.end))
  {
    ReachedInv(cfg, key, r, ds);
    TrippedByNote(cfg, AfterCheck(cfg, r.store, key, d.start), key, d.end);
  }

  // ---------------------------------------------------------------- what a delivery ends with

  // The first answer that is no HTTP failure comes at place i.
  predicate SettledAt(answers: seq<Answer>, i: nat) {
    i < |answers| && !answers[i].HttpFailure? && forall j :: 0 <= j < i ==> answers[j].HttpFailure?
  }

  // A delivery that is not refused and has somewhere to go is settled by the first
  // answer that is no HTTP failure, if it comes within max(1, maxRetry) fetches, and
  // given up otherwise; a success clears the state, giving up counts one more failure.
  lemma {:induction false} DeliveryEndsExactly(cfg: Config, key: string, r: Run, ds: seq<Delivery>, d: Delivery)
    requires Sane(cfg) && Reached(cfg, key, r, ds) && Fits(cfg, r.now, d)
    requires Current(r.store, key, d.start).count < cfg.threshold && d.configured
    ensures var e, n := Delivering(cfg, r.store, key, d), if cfg.maxRetry > 1 then cfg.maxRetry else 1;
      (forall i: nat :: i < n && SettledAt(d.answers, i) ==>
         e.fetches == i + 1 && e.outcome == if d.answers[i].Ok? then Delivered else Raised) &&
      ((forall i: nat :: i < n ==> d.answers[i].HttpFailure?) ==> e.fetches == n && e.outcome == GaveUp)
    ensures var e := Delivering(cfg, r.store, key, d);
      (e.outcome == Delivered ==> Current(e.store, key, d.end).count == 0) &&
      (e.outcome == GaveUp ==>
         Current(e.store, key, d.end).count ==
         Current(AfterCheck(cfg, r.store, key, d.start), key, d.end).count + 1)
  {
    ReachedInv(cfg, key, r, ds);
    RefusedIffFull(cfg, key, r, ds, d);
    var n := Attempts(cfg);
    var f := FailuresFirst(d.answers, n);
    assert f < n ==> !d.answers[f].HttpFailure?;
    forall i: nat | i < n && SettledAt(d.answers, i) ensures f == i {}
    if forall i: nat :: i < n ==> d.answers[i].HttpFailure? { assert f == n; }
    NotedIsCurrent(cfg, AfterCheck(cfg, r.store, key, d.start), key, true, d.end);
    NotedIsCurrent(cfg, AfterCheck(cfg, r.store, key, d.start), key, false, d.end);
  }

  lemma NotedIsCurrent(cfg: Config, s: Store, key: string, success: bool, now: int)
    requires Sane(cfg)
    ensures Current(AfterNote(cfg, s, key, success, now), key, now).count ==
            if success then 0 else Current(s, key, now).count + 1
  {
  }

  // So a delivery that follows a success is never refused, however many failures came before.
  lemma {:induction false} SuccessReopens(cfg: Config, key: string, r: Run, ds: seq<Delivery>, d: Delivery, e: Delivery)
    requires Sane(cfg) && Reached(cfg, key, r, ds) && Fits(cfg, r.now, d)
    requires Delivering(cfg, r.store, key, d).outcome == Delivered && Fits(cfg, d.end, e)
    ensures Delivering(cfg, Delivering(cfg, r.store, key, d).store, key, e).outcome != Refused
  {
  }
}
