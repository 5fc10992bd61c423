// Replay protection without lock objects: the KV-only path of checkReplay, run
// by concurrent calls inside one isolate that share its claim map.  The cron
// janitor and /forget run beside them.
module ReplayFallback {
  import opened Wrappers
  import opened ReplayLocks

  // What a replay key holds in KV: an unfinished claim or the final marker "1".
  datatype Mark = Claim(id: nat) | One

  datatype Entry = Entry(mark: Mark, exp: int)

  datatype Stage =
    | Reading(attempt: nat)
    | Marking(attempt: nat)
    | Checking(attempt: nat, id: nat)
    | Sealing(attempt: nat)
    | Leaving(ok: bool)       // the answer is known, the finally block is still to run
    | Left(ok: bool)

  datatype Caller = Caller(key: Key, started: int, stage: Stage)

  datatype Note =
    | Admitted(req: Req, key: Key, time: int, exp: int)   // checkReplay succeeds; its marker lives until exp
    | Deleted(key: Key, time: int, janitor: bool)         // the marker was removed

  datatype World = World(
    now: int,
    claims: map<Key, int>,
    kv: map<Key, Entry>,
    callers: map<Req, Caller>,
    doomed: set<Key>,          // keys the janitor has decided to delete
    notes: seq<Note>)

  datatype Move =
    | Wait(seconds: nat)
    | Enter(req: Req, key: Key)
    | Read(req: Req, outcome: Write)
    | PutClaim(req: Req, id: nat, applied: bool, outcome: Write)
    | CheckOwner(req: Req, outcome: Write)
    | PutOne(req: Req, applied: bool, outcome: Write)
    | Leave(req: Req)
    | JanitorReads(key: Key)
    | JanitorDeletes(key: Key)
    | Forget(key: Key)

  const Empty := World(0, map[], map[], map[], {}, [])

  // KV read: an entry is gone once its expiry lies in the past.
  function Get(w: World, k: Key): Option<Mark> {
    if k in w.kv && w.kv[k].exp >= w.now then Some(w.kv[k].mark) else None
  }

  function Put(ttl: int, w: World, k: Key, m: Mark): World { w.(kv := w.kv[k := Entry(m, w.now + ttl)]) }

  function To(w: World, r: Req, stage: Stage): World
    requires r in w.callers
  {
    w.(callers := w.callers[r := w.callers[r].(stage := stage)])
  }

  // A KV operation failed: busy errors restart the loop twice, all else ends it.
  function Retry(outcome: Write, attempt: nat): Stage {
    if outcome.Busy? && attempt < 2 then Reading(attempt + 1) else Leaving(false)
  }

  function Act(ttl: int, w: World, a: Move): World {
    match a
    case Wait(d) => w.(now := w.now + d)
    case Enter(r, k) =>
      if r in w.callers then w else
      var live := Unexpired(w.claims, w.now);
      if k in live then w.(claims := live, callers := w.callers[r := Caller(k, w.now, Left(false))])
      else w.(claims := live[k := w.now + ClaimLife(ttl)], callers := w.callers[r := Caller(k, w.now, Reading(0))])
    case Read(r, outcome) =>
      if r !in w.callers || !w.callers[r].stage.Reading? then w else
      var n := w.callers[r].stage.attempt;
      To(w, r, if !outcome.Stored? then Retry(outcome, n)
               else if Get(w, w.callers[r].key).Some? then Leaving(false) else Marking(n))
    case PutClaim(r, id, applied, outcome) =>
      if r !in w.callers || !w.callers[r].stage.Marking? then w else
      var k, n := w.callers[r].key, w.callers[r].stage.attempt;
      var x := if applied || outcome.Stored? then Put(ttl, w, k, Claim(id)) else w;
      To(x, r, if outcome.Stored? then Checking(n, id) else Retry(outcome, n))
    case CheckOwner(r, outcome) =>
      if r !in w.callers || !w.callers[r].stage.Checking? then w else
      var n := w.callers[r].stage.attempt;
      To(w, r, if !outcome.Stored? then Retry(outcome, n)
               else if Get(w, w.callers[r].key) != Some(Claim(w.callers[r].stage.id)) then Leaving(false)
               else Sealing(n))
    case PutOne(r, applied, outcome) =>
      if r !in w.callers || !w.callers[r].stage.Sealing? then w else
      var k, n := w.callers[r].key, w.callers[r].stage.attempt;
      var x := if applied || outcome.Stored? then Put(ttl, w, k, One) else w;
      if outcome.Stored? then To(x, r, Leaving(true)).(notes := w.notes + [Admitted(r, k, w.now, w.now + ttl)])
      else To(x, r, Retry(outcome, n))
    case Leave(r) =>
      if r !in w.callers || !w.callers[r].stage.Leaving? then w
      else To(w, r, Left(w.callers[r].stage.ok)).(claims := w.claims - {w.callers[r].key})
    case JanitorReads(k) =>
      // JSON.parse fails on a claim, which the janitor takes for a malformed item; "1" parses
      if Get(w, k).Some? && Get(w, k).value.Claim? then w.(doomed := w.doomed + {k}) else w
    case JanitorDeletes(k) =>
      if k in w.doomed then
        w.(kv := w.kv - {k}, doomed := w.doomed - {k}, notes := w.notes + [Deleted(k, w.now, true)])
      else w
    case Forget(k) => w.(kv := w.kv - {k}, notes := w.notes + [Deleted(k, w.now, false)])
  }

  function History(ttl: int, w: World, moves: seq<Move>): World
    decreases |moves|
  {
    if moves == [] then w else Act(ttl, History(ttl, w, moves[..|moves| - 1]), moves[|moves| - 1])
  }

  // ---------------------------------------------------------------- the invariant

  predicate Inside(w: World, r: Req) { r in w.callers && !w.callers[r].stage.Left? }

  predicate Committed(w: World, r: Req) {
    r in w.callers && (var s := w.callers[r].stage; s.Marking? || s.Checking? || s.Sealing?)
  }

  // No call has outlived its entry in the claim map.
  ghost predicate Prompt(ttl: int, w: World) {
    forall r :: Inside(w, r) ==> w.now < w.callers[r].started + ClaimLife(ttl)
  }

  ghost predicate PromptHistory(ttl: int, moves: seq<Move>)
    decreases |moves|
  {
    Prompt(ttl, History(ttl, Empty, moves)) && (moves == [] || PromptHistory(ttl, moves[..|moves| - 1]))
  }

  // The claim map lets one call per key inside.
  ghost predicate OneInside(ttl: int, w: World) {
    (forall r :: Inside(w, r) ==> w.callers[r].key in w.claims &&
                                  w.claims[w.callers[r].key] == w.callers[r].started + ClaimLife(ttl)) &&
    forall r, q :: Inside(w, r) && Inside(w, q) && w.callers[r].key == w.callers[q].key ==> r == q
  }

  predicate Untouched(notes: seq<Note>, from: nat, to: nat, k: Key) {
    forall d: nat :: from < d < to && d < |notes| && notes[d].Deleted? ==> notes[d].key != k
  }

  predicate AdmittedAt(notes: seq<Note>, i: nat, k: Key) {
    i < |notes| && notes[i].Admitted? && notes[i].key == k
  }

  // The marker of a winner stays until it expires or is deleted ...
  ghost predicate MarkersStay(ttl: int, w: World) {
    forall i: nat, k :: AdmittedAt(w.notes, i, k) && Untouched(w.notes, i, |w.notes|, k) ==>
      w.notes[i].exp <= w.now + ttl && k in w.kv && w.kv[k].exp >= w.notes[i].exp
  }

  // ... so a call that found the key free came after every such marker expired.
  ghost predicate CommittedLate(w: World) {
    forall r, i: nat ::
      (Committed(w, r) && AdmittedAt(w.notes, i, w.callers[r].key) &&
       Untouched(w.notes, i, |w.notes|, w.callers[r].key) ==>
         w.notes[i].exp < w.now)
  }

  ghost predicate Separated(notes: seq<Note>) {
    forall i: nat, j: nat, k ::
      (i < j && AdmittedAt(notes, i, k) && AdmittedAt(notes, j, k) && Untouched(notes, i, j, k) ==>
         notes[i].exp < notes[j].time)
  }

  ghost predicate FallbackInv(ttl: int, w: World) {
    OneInside(ttl, w) && MarkersStay(ttl, w) && CommittedLate(w) && Separated(w.notes)
  }

  // ---------------------------------------------------------------- preservation

  lemma {:induction false} SameNotes(notes: seq<Note>, n: Note, i: nat, to: nat, k: Key)
    requires to <= |notes| && Untouched(notes + [n], i, to, k)
    ensures Untouched(notes, i, to, k)
  {
    forall d: nat | i < d < to && d < |notes| && notes[d].Deleted? ensures notes[d].key != k {
      assert (notes + [n])[d] == notes[d];
    }
  }

  // A call moves on; it commits only after it read the key as free.
  lemma QuietMove(ttl: int, w: World, x: World)
    requires FallbackInv(ttl, w) && x.notes == w.notes && x.now >= w.now && OneInside(ttl, x)
    requires forall k :: k in w.kv ==> k in x.kv && (x.kv[k] == w.kv[k] || x.kv[k].exp == w.now + ttl)
    requires forall r :: Committed(x, r) ==>
      r in w.callers && x.callers[r].key == w.callers[r].key &&
      (Committed(w, r) || Get(w, w.callers[r].key).None?)
    ensures FallbackInv(ttl, x)
  {
    forall r, i: nat | Committed(x, r) && AdmittedAt(x.notes, i, x.callers[r].key) &&
        Untouched(x.notes, i, |x.notes|, x.callers[r].key)
      ensures x.notes[i].exp < x.now
    {
      if !Committed(w, r) { assert w.kv[w.callers[r].key].exp >= w.notes[i].exp; }
    }
  }

  lemma AdmitMove(ttl: int, w: World, r: Req, applied: bool)
    requires FallbackInv(ttl, w) && r in w.callers && w.callers[r].stage.Sealing?
    ensures FallbackInv(ttl, Act(ttl, w, PutOne(r, applied, Stored)))
  {
    var x := Act(ttl, w, PutOne(r, applied, Stored));
    var n := x.notes[|w.notes|];
    var k := w.callers[r].key;
    assert Inside(w, r) && Committed(w, r);
    forall i: nat, j | AdmittedAt(x.notes, i, j) && Untouched(x.notes, i, |x.notes|, j)
      ensures x.notes[i].exp <= x.now + ttl && j in x.kv && x.kv[j].exp >= x.notes[i].exp
    {
      if i < |w.notes| {
        assert Untouched(x.notes, i, |w.notes|, j);
        SameNotes(w.notes, n, i, |w.notes|, j);
        assert AdmittedAt(w.notes, i, j);
      }
    }
    forall q, i: nat | Committed(x, q) && AdmittedAt(x.notes, i, x.callers[q].key) &&
        Untouched(x.notes, i, |x.notes|, x.callers[q].key)
      ensures x.notes[i].exp < x.now
    {
      assert q != r && Committed(w, q) && Inside(w, q);
      assert Untouched(x.notes, i, |w.notes|, x.callers[q].key);
      SameNotes(w.notes, n, i, |w.notes|, x.callers[q].key);
      assert AdmittedAt(w.notes, i, w.callers[q].key);
    }
    SeparatedAfter(w, n, r);
  }

  lemma SeparatedAfter(w: World, n: Note, r: Req)
    requires Separated(w.notes) && CommittedLate(w) && Committed(w, r)
    requires n.Admitted? && n.key == w.callers[r].key && n.time == w.now
    ensures Separated(w.notes + [n])
  {
    var notes := w.notes + [n];
    forall i: nat, j: nat, k | i < j && AdmittedAt(notes, i, k) && AdmittedAt(notes, j, k) && Untouched(notes, i, j, k)
      ensures notes[i].exp < notes[j].time
    {
      SameNotes(w.notes, n, i, j, k);
      assert AdmittedAt(w.notes, i, k);
      if j < |w.notes| { assert AdmittedAt(w.notes, j, k); }
    }
  }

  lemma DeleteMove(ttl: int, w: World, x: World, n: Note)
    requires FallbackInv(ttl, w) && n.Deleted? && x.notes == w.notes + [n] && x.now == w.now
    requires x.callers == w.callers && x.claims == w.claims && x.kv == w.kv - {n.key}
    ensures FallbackInv(ttl, x)
  {
    forall i: nat, k | AdmittedAt(x.notes, i, k) && Untouched(x.notes, i, |x.notes|, k)
      ensures k != n.key && AdmittedAt(w.notes, i, k) && Untouched(w.notes, i, |w.notes|, k)
    {
      assert x.notes[|w.notes|] == n;
      assert Untouched(x.notes, i, |w.notes|, k);
      SameNotes(w.notes, n, i, |w.notes|, k);
    }
    forall i: nat, j: nat, k | i < j && AdmittedAt(x.notes, i, k) && AdmittedAt(x.notes, j, k) &&
        Untouched(x.notes, i, j, k)
      ensures x.notes[i].exp < x.notes[j].time
    {
      SameNotes(w.notes, n, i, j, k);
      assert AdmittedAt(w.notes, i, k) && AdmittedAt(w.notes, j, k);
    }
  }

  lemma EnterMove(ttl: int, w: World, r: Req, k: Key)
    requires FallbackInv(ttl, w) && Prompt(ttl, w)
    ensures FallbackInv(ttl, Act(ttl, w, Enter(r, k)))
  {
    var x := Act(ttl, w, Enter(r, k));
    if r !in w.callers {
      forall q | Inside(w, q) ensures w.callers[q].key in Unexpired(w.claims, w.now) {}
      assert forall q :: q != r ==> Inside(x, q) == Inside(w, q);
      QuietMove(ttl, w, x);
    }
  }

  lemma LeaveMove(ttl: int, w: World, r: Req)
    requires FallbackInv(ttl, w)
    ensures FallbackInv(ttl, Act(ttl, w, Leave(r)))
  {
    var x := Act(ttl, w, Leave(r));
    if r in w.callers && w.callers[r].stage.Leaving? {
      assert Inside(w, r);
      assert forall q :: Inside(x, q) <==> q != r && Inside(w, q);
      QuietMove(ttl, w, x);
    }
  }

  // A call inside moves to another stage inside.
  lemma StageMove(ttl: int, w: World, x: World, r: Req, stage: Stage)
    requires FallbackInv(ttl, w) && Inside(w, r) && !stage.Left?
    requires x.callers == w.callers[r := w.callers[r].(stage := stage)]
    requires x.notes == w.notes && x.now == w.now && x.claims == w.claims
    requires x.kv == w.kv || exists e: Entry :: e.exp == w.now + ttl && x.kv == w.kv[w.callers[r].key := e]
    requires stage.Marking? || stage.Checking? || stage.Sealing? ==>
      Committed(w, r) || Get(w, w.callers[r].key).None?
    ensures FallbackInv(ttl, x)
  {
    assert forall q :: Inside(x, q) == Inside(w, q);
    assert OneInside(ttl, x);
    QuietMove(ttl, w, x);
  }

  lemma ReadMove(ttl: int, w: World, r: Req, outcome: Write)
    requires FallbackInv(ttl, w)
    ensures FallbackInv(ttl, Act(ttl, w, Read(r, outcome)))
  {
    var x := Act(ttl, w, Read(r, outcome));
    if r in w.callers && w.callers[r].stage.Reading? { StageMove(ttl, w, x, r, x.callers[r].stage); }
  }

  lemma ClaimMove(ttl: int, w: World, r: Req, id: nat, applied: bool, outcome: Write)
    requires FallbackInv(ttl, w)
    ensures FallbackInv(ttl, Act(ttl, w, PutClaim(r, id, applied, outcome)))
  {
    var x := Act(ttl, w, PutClaim(r, id, applied, outcome));
    if r in w.callers && w.callers[r].stage.Marking? {
      assert w.kv[w.callers[r].key := Entry(Claim(id), w.now + ttl)] == x.kv || x.kv == w.kv;
      StageMove(ttl, w, x, r, x.callers[r].stage);
    }
  }

  lemma CheckMove(ttl: int, w: World, r: Req, outcome: Write)
    requires FallbackInv(ttl, w)
    ensures FallbackInv(ttl, Act(ttl, w, CheckOwner(r, outcome)))
  {
    var x := Act(ttl, w, CheckOwner(r, outcome));
    if r in w.callers && w.callers[r].stage.Checking? { StageMove(ttl, w, x, r, x.callers[r].stage); }
  }

  lemma SealMove(ttl: int, w: World, r: Req, applied: bool, outcome: Write)
    requires FallbackInv(ttl, w)
    ensures FallbackInv(ttl, Act(ttl, w, PutOne(r, applied, outcome)))
  {
    var x := Act(ttl, w, PutOne(r, applied, outcome));
    if r in w.callers && w.callers[r].stage.Sealing? {
      if outcome.Stored? {
        AdmitMove(ttl, w, r, applied);
      } else {
        assert w.kv[w.callers[r].key := Entry(One, w.now + ttl)] == x.kv || x.kv == w.kv;
        StageMove(ttl, w, x, r, x.callers[r].stage);
      }
    }
  }

  // A move that leaves the calls, their claims and the markers alone.
  lemma IdleMove(ttl: int, w: World, x: World)
    requires FallbackInv(ttl, w) && x.callers == w.callers && x.claims == w.claims && x.kv == w.kv
    requires x.notes == w.notes && x.now >= w.now
    ensures FallbackInv(ttl, x)
  {
    assert forall q :: Inside(x, q) == Inside(w, q);
    QuietMove(ttl, w, x);
  }

  lemma MoveKeepsInv(ttl: int, w: World, a: Move)
    requires FallbackInv(ttl, w) && Prompt(ttl, w)
    ensures FallbackInv(ttl, Act(ttl, w, a))
  {
    match a
    case Wait(d) => IdleMove(ttl, w, Act(ttl, w, Wait(d)));
    case Enter(r, k) => EnterMove(ttl, w, r, k);
    case Read(r, outcome) => ReadMove(ttl, w, r, outcome);
    case PutClaim(r, id, applied, outcome) => ClaimMove(ttl, w, r, id, applied, outcome);
    case CheckOwner(r, outcome) => CheckMove(ttl, w, r, outcome);
    case PutOne(r, applied, outcome) => SealMove(ttl, w, r, applied, outcome);
    case Leave(r) => LeaveMove(ttl, w, r);
    case JanitorReads(k) => IdleMove(ttl, w, Act(ttl, w, JanitorReads(k)));
    case JanitorDeletes(k) =>
      if k in w.doomed { DeleteMove(ttl, w, Act(ttl, w, JanitorDeletes(k)), Deleted(k, w.now, true)); }
    case Forget(k) => DeleteMove(ttl, w, Act(ttl, w, Forget(k)), Deleted(k, w.now, false));
  }

  lemma {:induction false} HistoryKeepsInv(ttl: int, moves: seq<Move>)
    requires PromptHistory(ttl, moves)
    ensures FallbackInv(ttl, History(ttl, Empty, moves))
    decreases |moves|
  {
    if moves != [] {
      HistoryKeepsInv(ttl, moves[..|moves| - 1]);
      MoveKeepsInv(ttl, History(ttl, Empty, moves[..|moves| - 1]), moves[|moves| - 1]);
    }
  }

  // Main result: inside one isolate, if no call outlives its claim, then under
  // every interleaving, with busy retries and half-failed writes, a key admits
  // no second call until the first winner's marker has expired or was deleted.
  lemma {:induction false} FallbackAdmitsOnce(ttl: int, moves: seq<Move>, i: nat, j: nat, k: Key)
    requires PromptHistory(ttl, moves)
    requires var notes := History(ttl, Empty, moves).notes;
      i < j && AdmittedAt(notes, i, k) && AdmittedAt(notes, j, k) && Untouched(notes, i, j, k)
    ensures var notes := History(ttl, Empty, moves).notes;
      notes[i].exp < notes[j].time
  {
    HistoryKeepsInv(ttl, moves);
  }

  // ---------------------------------------------------------------- when the janitor is harmless

  // The janitor looks at k while an unfinished claim is stored there.
  predicate ReadsClaim(w: World, k: Key, a: Move) {
    a == JanitorReads(k) && Get(w, k).Some? && Get(w, k).value.Claim?
  }

  // It never does so in a history: it is off, it does not come to k, or it finds
  // k free, expired or finished.
  ghost predicate JanitorMisses(ttl: int, moves: seq<Move>, k: Key)
    decreases |moves|
  {
    moves == [] ||
    (var before := moves[..|moves| - 1];
     JanitorMisses(ttl, before, k) && !ReadsClaim(History(ttl, Empty, before), k, moves[|moves| - 1]))
  }

  lemma {:induction false} JanitorOff(ttl: int, moves: seq<Move>, k: Key)
    requires JanitorReads(k) !in moves
    ensures JanitorMisses(ttl, moves, k)
    decreases |moves|
  {
    if moves != [] { JanitorOff(ttl, moves[..|moves| - 1], k); }
  }

  ghost predicate NeverDoomed(ttl: int, moves: seq<Move>, k: Key) {
    forall n: nat :: n <= |moves| ==> k !in History(ttl, Empty, moves[..n]).doomed
  }

  lemma DoomedMove(ttl: int, w: World, a: Move, k: Key)
    requires k !in w.doomed
    ensures k in Act(ttl, w, a).doomed <==> ReadsClaim(w, k, a)
  {
  }

  lemma {:induction false} NeverDoomedPrefix(ttl: int, moves: seq<Move>, m: nat, k: Key)
    requires m <= |moves| && NeverDoomed(ttl, moves, k)
    ensures NeverDoomed(ttl, moves[..m], k)
  {
    forall n: nat | n <= m ensures k !in History(ttl, Empty, moves[..m][..n]).doomed {
      assert moves[..m][..n] == moves[..n];
    }
  }

  // The janitor decides to delete k at some moment of a history exactly if it
  // reads an unfinished claim there.
  lemma {:induction false} DoomedExactly(ttl: int, moves: seq<Move>, k: Key)
    ensures JanitorMisses(ttl, moves, k) <==> NeverDoomed(ttl, moves, k)
    decreases |moves|
  {
    if moves != [] {
      var before := moves[..|moves| - 1];
      DoomedExactly(ttl, before, k);
      if NeverDoomed(ttl, moves, k) { NeverDoomedPrefix(ttl, moves, |moves| - 1, k); }
      if NeverDoomed(ttl, before, k) { NeverDoomedLonger(ttl, moves, k); }
    }
  }

  lemma {:induction false} NeverDoomedLonger(ttl: int, moves: seq<Move>, k: Key)
    requires moves != [] && NeverDoomed(ttl, moves[..|moves| - 1], k)
    ensures NeverDoomed(ttl, moves, k) <==>
            !ReadsClaim(History(ttl, Empty, moves[..|moves| - 1]), k, moves[|moves| - 1])
  {
    var before := moves[..|moves| - 1];
    var w := History(ttl, Empty, before);
    assert before[..|before|] == before && moves[..|moves|] == moves;
    assert k !in w.doomed;
    DoomedMove(ttl, w, moves[|moves| - 1], k);
    forall n: nat | n < |moves| ensures k !in History(ttl, Empty, moves[..n]).doomed {
      assert before[..n] == moves[..n];
    }
  }

  predicate NotDeleted(notes: seq<Note>, k: Key) { forall n :: n in notes && n.Deleted? ==> n.key != k }

  lemma SparingMove(ttl: int, w: World, a: Move, k: Key)
    requires k !in w.doomed && NotDeleted(w.notes, k) && a != Forget(k)
    ensures NotDeleted(Act(ttl, w, a).notes, k)
  {
  }

  lemma {:induction false} MarkersAreSpared(ttl: int, moves: seq<Move>, k: Key)
    requires Forget(k) !in moves && NeverDoomed(ttl, moves, k)
    ensures NotDeleted(History(ttl, Empty, moves).notes, k)
    decreases |moves|
  {
    if moves != [] {
      var before := moves[..|moves| - 1];
      NeverDoomedPrefix(ttl, moves, |moves| - 1, k);
      MarkersAreSpared(ttl, before, k);
      assert k !in History(ttl, Empty, moves[..|before|]).doomed;
      SparingMove(ttl, History(ttl, Empty, before), moves[|moves| - 1], k);
    }
  }

  // Main result: if /forget leaves k alone and the janitor never reads an unfinished
  // claim there, any two admissions of k are separated by the expiry of the first.
  lemma {:induction false} QuietJanitorAdmitsOnce(ttl: int, moves: seq<Move>, i: nat, j: nat, k: Key)
    requires PromptHistory(ttl, moves) && Forget(k) !in moves && JanitorMisses(ttl, moves, k)
    requires var notes := History(ttl, Empty, moves).notes; i < j && AdmittedAt(notes, i, k) && AdmittedAt(notes, j, k)
    ensures var notes := History(ttl, Empty, moves).notes;
      notes[i].exp < notes[j].time
  {
    DoomedExactly(ttl, moves, k);
    MarkersAreSpared(ttl, moves, k);
    FallbackAdmitsOnce(ttl, moves, i, j, k);
  }

  // ---------------------------------------------------------------- what a call does

  lemma {:induction false} HistoryConcat(ttl: int, w: World, a: seq<Move>, b: seq<Move>)
    ensures History(ttl, w, a + b) == History(ttl, History(ttl, w, a), b)
    decreases |b|
  {
    if b == [] {
      assert a + b == a;
    } else {
      HistoryConcat(ttl, w, a, b[..|b| - 1]);
      assert (a + b)[..|a + b| - 1] == a + b[..|b| - 1];
    }
  }

  lemma HistoryOne(ttl: int, w: World, a: Move)
    ensures History(ttl, w, [a]) == Act(ttl, w, a)
  {
    assert [a][..0] == [];
  }

  lemma HistoryThree(ttl: int, w: World, a: Move, b: Move, c: Move)
    ensures History(ttl, w, [a, b, c]) == Act(ttl, Act(ttl, Act(ttl, w, a), b), c)
  {
    HistoryConcat(ttl, w, [a, b], [c]);
    HistoryConcat(ttl, w, [a], [b]);
    assert [a, b] + [c] == [a, b, c] && [a] + [b] == [a, b];
    HistoryOne(ttl, w, a);
    HistoryOne(ttl, Act(ttl, w, a), b);
    HistoryOne(ttl, Act(ttl, Act(ttl, w, a), b), c);
  }

  // A call up to the write of its claim, and the rest of it.
  function FirstHalf(r: Req, k: Key, id: nat): seq<Move> {
    [Enter(r, k), Read(r, Stored), PutClaim(r, id, true, Stored)]
  }

  function SecondHalf(r: Req): seq<Move> {
    [CheckOwner(r, Stored), PutOne(r, true, Stored), Leave(r)]
  }

  function WholeCall(r: Req, k: Key, id: nat): seq<Move> { FirstHalf(r, k, id) + SecondHalf(r) }

  ghost predicate Idle(w: World, k: Key) { forall r :: Inside(w, r) ==> w.callers[r].key != k }

  predicate WorksOn(w: World, r: Req, k: Key) { Inside(w, r) && w.callers[r].key == k }

  // Whatever is claimed, some call is still at work on.
  ghost predicate ClaimsWorked(w: World) { forall k :: k in w.claims ==> exists r :: WorksOn(w, r, k) }

  lemma MoveKeepsWorked(ttl: int, w: World, a: Move)
    requires ClaimsWorked(w)
    ensures ClaimsWorked(Act(ttl, w, a))
  {
    var x := Act(ttl, w, a);
    forall k | k in x.claims ensures exists r :: WorksOn(x, r, k) {
      if k in w.claims {
        var r :| WorksOn(w, r, k);
        StillWorks(ttl, w, a, r, k);
        assert WorksOn(x, r, k);
      } else {
        assert WorksOn(x, a.req, k);
      }
    }
  }

  lemma StillWorks(ttl: int, w: World, a: Move, r: Req, k: Key)
    requires WorksOn(w, r, k) && k in Act(ttl, w, a).claims
    ensures WorksOn(Act(ttl, w, a), r, k)
  {
  }

  lemma {:induction false} HistoryKeepsWorked(ttl: int, moves: seq<Move>)
    ensures ClaimsWorked(History(ttl, Empty, moves))
    decreases |moves|
  {
    if moves != [] {
      HistoryKeepsWorked(ttl, moves[..|moves| - 1]);
      MoveKeepsWorked(ttl, History(ttl, Empty, moves[..|moves| - 1]), moves[|moves| - 1]);
    }
  }

  lemma IdleIsUnclaimed(w: World, k: Key)
    requires ClaimsWorked(w) && Idle(w, k)
    ensures k !in w.claims
  {
    assert !exists r :: WorksOn(w, r, k);
  }

  // A call for a free key that meets no fault, whatever the state around it.
  lemma FreeKeyIsClaimed(ttl: int, w: World, r: Req, k: Key, id: nat)
    requires r !in w.callers && k !in w.claims && Get(w, k).None?
    ensures var x := History(ttl, w, FirstHalf(r, k, id));
      x.callers == w.callers[r := Caller(k, w.now, Checking(0, id))] && x.now == w.now && x.notes == w.notes &&
      x.kv == w.kv[k := Entry(Claim(id), w.now + ttl)]
  {
    HistoryThree(ttl, w, Enter(r, k), Read(r, Stored), PutClaim(r, id, true, Stored));
    var x1 := Act(ttl, w, Enter(r, k));
    assert x1.callers == w.callers[r := Caller(k, w.now, Reading(0))];
    var x2 := Act(ttl, x1, Read(r, Stored));
    assert x2.callers == w.callers[r := Caller(k, w.now, Marking(0))];
  }

  lemma OwnClaimIsSealed(ttl: int, w: World, r: Req, k: Key, id: nat)
    requires r in w.callers && w.callers[r].key == k && w.callers[r].stage == Checking(0, id)
    requires Get(w, k) == Some(Claim(id))
    ensures var x := History(ttl, w, SecondHalf(r));
      x.callers == w.callers[r := w.callers[r].(stage := Left(true))] && k !in x.claims &&
      x.notes == w.notes + [Admitted(r, k, w.now, w.now + ttl)] && x.kv == w.kv[k := Entry(One, w.now + ttl)]
  {
    HistoryThree(ttl, w, CheckOwner(r, Stored), PutOne(r, true, Stored), Leave(r));
    var c := w.callers[r];
    var w1 := Act(ttl, w, CheckOwner(r, Stored));
    assert w1.callers == w.callers[r := c.(stage := Sealing(0))];
    var w2 := Act(ttl, w1, PutOne(r, true, Stored));
    assert w2.callers == w.callers[r := c.(stage := Leaving(true))];
  }

  lemma {:induction false} WholeCallRuns(ttl: int, w: World, r: Req, k: Key, id: nat)
    requires r !in w.callers && k !in w.claims && Get(w, k).None? && ttl >= 0
    ensures var x := History(ttl, w, WholeCall(r, k, id));
      x.callers == w.callers[r := Caller(k, w.now, Left(true))] && k !in x.claims &&
      x.kv == w.kv[k := Entry(One, w.now + ttl)]
  {
    var y := History(ttl, w, FirstHalf(r, k, id));
    HistoryConcat(ttl, w, FirstHalf(r, k, id), SecondHalf(r));
    FreeKeyIsClaimed(ttl, w, r, k, id);
    OwnClaimIsSealed(ttl, y, r, k, id);
    assert y.callers[r := y.callers[r].(stage := Left(true))] == w.callers[r := Caller(k, w.now, Left(true))];
    assert y.kv[k := Entry(One, w.now + ttl)] == w.kv[k := Entry(One, w.now + ttl)];
  }

  // Main result: in every reachable state, a call that meets no fault, for a key that
  // no other call is at work on, succeeds if KV holds nothing for the key, and leaves
  // the marker there and no claim behind ...
  lemma {:induction false} FreeKeyIsAdmitted(ttl: int, moves: seq<Move>, r: Req, k: Key, id: nat)
    requires var w := History(ttl, Empty, moves); r !in w.callers && Idle(w, k) && Get(w, k).None?
    requires ttl >= 0
    ensures var w, x := History(ttl, Empty, moves), History(ttl, Empty, moves + WholeCall(r, k, id));
      x.callers == w.callers[r := Caller(k, w.now, Left(true))] && k !in x.claims &&
      x.kv == w.kv[k := Entry(One, w.now + ttl)]
  {
    var w := History(ttl, Empty, moves);
    HistoryKeepsWorked(ttl, moves);
    IdleIsUnclaimed(w, k);
    HistoryConcat(ttl, Empty, moves, WholeCall(r, k, id));
    WholeCallRuns(ttl, w, r, k, id);
  }

  // ... and fails if KV holds a marker or a claim for it.
  lemma {:induction false} TakenKeyIsRefused(ttl: int, moves: seq<Move>, r: Req, k: Key)
    requires var w := History(ttl, Empty, moves); r !in w.callers && Get(w, k).Some?
    ensures var w, x := History(ttl, Empty, moves),
                        History(ttl, Empty, moves + [Enter(r, k), Read(r, Stored), Leave(r)]);
      r in x.callers && x.callers[r].stage == Left(false) && x.kv == w.kv && x.notes == w.notes
  {
    var w := History(ttl, Empty, moves);
    HistoryConcat(ttl, Empty, moves, [Enter(r, k), Read(r, Stored), Leave(r)]);
    HistoryThree(ttl, w, Enter(r, k), Read(r, Stored), Leave(r));
  }

  // Busy answers start the check over twice; the third ends it.
  lemma BusyThrice(ttl: int, w: World, r: Req)
    requires r in w.callers && w.callers[r].stage == Reading(0)
    ensures var x := History(ttl, w, [Read(r, Busy), Read(r, Busy), Read(r, Busy)]);
      r in x.callers && x.callers[r].stage == Leaving(false) && x.kv == w.kv
    ensures var x := History(ttl, w, [Read(r, Busy), Read(r, Busy), Read(r, Stored)]);
      r in x.callers && x.callers[r].stage == (if Get(w, w.callers[r].key).Some? then Leaving(false) else Marking(2))
  {
    HistoryThree(ttl, w, Read(r, Busy), Read(r, Busy), Read(r, Busy));
    HistoryThree(ttl, w, Read(r, Busy), Read(r, Busy), Read(r, Stored));
    var x1 := Act(ttl, w, Read(r, Busy));
    assert x1.callers == w.callers[r := w.callers[r].(stage := Reading(1))];
    var x2 := Act(ttl, x1, Read(r, Busy));
    assert x2.callers == w.callers[r := w.callers[r].(stage := Reading(2))];
  }

  // ---------------------------------------------------------------- when it fails

  lemma FirstHalfRuns(w: World, r: Req, k: Key, id: nat)
    requires r !in w.callers && w.claims == map[] && Get(w, k).None?
    ensures History(600, w, FirstHalf(r, k, id)) ==
            w.(claims := map[k := w.now + 15], kv := w.kv[k := Entry(Claim(id), w.now + 600)],
               callers := w.callers[r := Caller(k, w.now, Checking(0, id))])
  {
    HistoryThree(600, w, Enter(r, k), Read(r, Stored), PutClaim(r, id, true, Stored));
    Entered(w, r, k);
    ReadAndClaimed(w.(claims := map[k := w.now + 15], callers := w.callers[r := Caller(k, w.now, Reading(0))]), r, id);
  }

  lemma Entered(w: World, r: Req, k: Key)
    requires r !in w.callers && w.claims == map[]
    ensures Act(600, w, Enter(r, k)) ==
            w.(claims := map[k := w.now + 15], callers := w.callers[r := Caller(k, w.now, Reading(0))])
  {
    assert Unexpired(w.claims, w.now) == map[];
  }

  lemma ReadAndClaimed(w: World, r: Req, id: nat)
    requires r in w.callers && w.callers[r].stage == Reading(0) && Get(w, w.callers[r].key).None?
    ensures Act(600, Act(600, w, Read(r, Stored)), PutClaim(r, id, true, Stored)) ==
            w.(kv := w.kv[w.callers[r].key := Entry(Claim(id), w.now + 600)],
               callers := w.callers[r := w.callers[r].(stage := Checking(0, id))])
  {
    var w2 := Act(600, w, Read(r, Stored));
    assert w2.callers == w.callers[r := w.callers[r].(stage := Marking(0))];
  }

  lemma SecondHalfRuns(w: World, r: Req, k: Key, id: nat)
    requires r in w.callers && w.callers[r].key == k && w.callers[r].stage == Checking(0, id)
    requires Get(w, k) == Some(Claim(id))
    ensures History(600, w, SecondHalf(r)) ==
            w.(claims := w.claims - {k}, kv := w.kv[k := Entry(One, w.now + 600)],
               callers := w.callers[r := w.callers[r].(stage := Left(true))],
               notes := w.notes + [Admitted(r, k, w.now, w.now + 600)])
  {
    HistoryThree(600, w, CheckOwner(r, Stored), PutOne(r, true, Stored), Leave(r));
    var c := w.callers[r];
    var w1 := Act(600, w, CheckOwner(r, Stored));
    assert w1.callers == w.callers[r := c.(stage := Sealing(0))];
    var w2 := Act(600, w1, PutOne(r, true, Stored));
    assert w2.callers == w.callers[r := c.(stage := Leaving(true))];
    assert Act(600, w2, Leave(r)).callers == w.callers[r := c.(stage := Left(true))];
  }

  ghost predicate AtStart(w: World) { w.now == 0 && forall r :: r in w.callers ==> w.callers[r].started == 0 }

  lemma NoWaitStaysAtStart(w: World, a: Move)
    requires AtStart(w) && !a.Wait?
    ensures AtStart(Act(600, w, a))
  {
  }

  // Without any clock tick every call is prompt.
  lemma {:induction false} NoWaitIsPrompt(moves: seq<Move>)
    requires forall a :: a in moves ==> !a.Wait?
    ensures PromptHistory(600, moves) && AtStart(History(600, Empty, moves))
    decreases |moves|
  {
    if moves != [] {
      NoWaitIsPrompt(moves[..|moves| - 1]);
      NoWaitStaysAtStart(History(600, Empty, moves[..|moves| - 1]), moves[|moves| - 1]);
    }
  }

  // The janitor can break it: it reads an unfinished claim, takes it for a
  // malformed item, and its delete lands after the winner wrote the marker.
  lemma JanitorAdmitsTwo(k: Key) returns (moves: seq<Move>)
    ensures PromptHistory(600, moves)
    ensures History(600, Empty, moves).notes ==
            [Admitted(0, k, 0, 600), Deleted(k, 0, true), Admitted(1, k, 0, 600)]
  {
    var first := JanitorRuns(k);
    var w := History(600, Empty, first);
    var half := first + FirstHalf(1, k, 8);
    moves := half + SecondHalf(1);
    NoWaitIsPrompt(moves);
    HistoryConcat(600, Empty, first, FirstHalf(1, k, 8));
    FirstHalfRuns(w, 1, k, 8);
    HistoryConcat(600, Empty, half, SecondHalf(1));
    SecondHalfRuns(History(600, w, FirstHalf(1, k, 8)), 1, k, 8);
  }

  lemma {:induction false} Extend(ttl: int, m: seq<Move>, w: World, more: seq<Move>)
    requires w == History(ttl, Empty, m)
    ensures History(ttl, Empty, m + more) == History(ttl, w, more)
  {
    HistoryConcat(ttl, Empty, m, more);
  }

  // The first winner, whose marker the janitor removes again.
  lemma JanitorRuns(k: Key) returns (moves: seq<Move>)
    ensures forall a :: a in moves ==> !a.Wait?
    ensures var w := History(600, Empty, moves);
            w.now == 0 && w.kv == map[] && w.claims == map[] && w.callers.Keys == {0} &&
            w.notes == [Admitted(0, k, 0, 600), Deleted(k, 0, true)]
  {
    var m, w := JanitorAndWinner(k);
    moves := m + [JanitorDeletes(k)];
    Extend(600, m, w, [JanitorDeletes(k)]);
    HistoryOne(600, w, JanitorDeletes(k));
  }

  lemma JanitorAndWinner(k: Key) returns (moves: seq<Move>, w: World)
    ensures forall a :: a in moves ==> !a.Wait?
    ensures w == History(600, Empty, moves)
    ensures w == World(0, map[], map[k := Entry(One, 600)], map[0 := Caller(k, 0, Left(true))], {k},
                       [Admitted(0, k, 0, 600)])
  {
    var m, w1 := ClaimAndJanitor(k);
    moves := m + SecondHalf(0);
    Extend(600, m, w1, SecondHalf(0));
    SecondHalfRuns(w1, 0, k, 7);
    w := History(600, w1, SecondHalf(0));
  }

  lemma ClaimAndJanitor(k: Key) returns (moves: seq<Move>, w: World)
    ensures forall a :: a in moves ==> !a.Wait?
    ensures w == History(600, Empty, moves)
    ensures w == World(0, map[k := 15], map[k := Entry(Claim(7), 600)], map[0 := Caller(k, 0, Checking(0, 7))], {k}, [])
  {
    var m := FirstHalf(0, k, 7);
    FirstHalfRuns(Empty, 0, k, 7);
    var w1 := History(600, Empty, m);
    moves := m + [JanitorReads(k)];
    Extend(600, m, w1, [JanitorReads(k)]);
    HistoryOne(600, w1, JanitorReads(k));
    w := Act(600, w1, JanitorReads(k));
  }

  // Promptness is needed: once a slow call has outlived its claim, a second one
  // gets inside, and the ownership check of the first does not stop the second.
  lemma SlowCallAdmitsTwo(k: Key) returns (moves: seq<Move>)
    ensures !PromptHistory(600, moves)
    ensures History(600, Empty, moves).notes == [Admitted(0, k, 15, 615), Admitted(1, k, 15, 615)]
  {
    var m, w := SlowPart3(k);
    moves := m + SecondHalf(1);
    Extend(600, m, w, SecondHalf(1));
    SecondHalfRuns(w, 1, k, 8);
    assert Inside(History(600, Empty, moves), 0);
  }

  lemma SlowPart1(k: Key) returns (moves: seq<Move>, w: World)
    ensures w == History(600, Empty, moves)
    ensures w == World(15, map[k := 15], map[], map[0 := Caller(k, 0, Marking(0))], {}, [])
  {
    moves := [Enter(0, k), Read(0, Stored), Wait(15)];
    HistoryThree(600, Empty, Enter(0, k), Read(0, Stored), Wait(15));
    var x := Act(600, Empty, Enter(0, k));
    assert x == World(0, map[k := 15], map[], map[0 := Caller(k, 0, Reading(0))], {}, []);
    var y := Act(600, x, Read(0, Stored));
    assert y.callers == map[0 := Caller(k, 0, Marking(0))];
    w := Act(600, y, Wait(15));
  }

  function SlowWorld1(k: Key): World {
    World(15, map[k := 15], map[], map[0 := Caller(k, 0, Marking(0))], {}, [])
  }

  function SlowWorld2(k: Key): World {
    World(15, map[k := 30], map[k := Entry(Claim(7), 615)],
          map[0 := Caller(k, 0, Checking(0, 7)), 1 := Caller(k, 15, Marking(0))], {}, [])
  }

  function SlowWorld3(k: Key): World {
    World(15, map[k := 30], map[k := Entry(Claim(8), 615)],
          map[0 := Caller(k, 0, Leaving(true)), 1 := Caller(k, 15, Checking(0, 8))], {}, [Admitted(0, k, 15, 615)])
  }

  lemma SlowActs2(k: Key)
    ensures Act(600, Act(600, Act(600, SlowWorld1(k), Enter(1, k)), Read(1, Stored)), PutClaim(0, 7, true, Stored)) ==
            SlowWorld2(k)
  {
    var x := Act(600, SlowWorld1(k), Enter(1, k));
    assert x == World(15, map[k := 30], map[],
                      map[0 := Caller(k, 0, Marking(0)), 1 := Caller(k, 15, Reading(0))], {}, []);
    var y := Act(600, x, Read(1, Stored));
    assert y.callers == map[0 := Caller(k, 0, Marking(0)), 1 := Caller(k, 15, Marking(0))];
  }

  // Call 0 has won; call 1 is about to write its claim.
  function SlowWorldWon(k: Key): World {
    World(15, map[k := 30], map[k := Entry(One, 615)],
          map[0 := Caller(k, 0, Leaving(true)), 1 := Caller(k, 15, Marking(0))], {}, [Admitted(0, k, 15, 615)])
  }

  lemma SlowWin(k: Key)
    ensures Act(600, Act(600, SlowWorld2(k), CheckOwner(0, Stored)), PutOne(0, true, Stored)) == SlowWorldWon(k)
  {
    var x := Act(600, SlowWorld2(k), CheckOwner(0, Stored));
    assert x.callers == map[0 := Caller(k, 0, Sealing(0)), 1 := Caller(k, 15, Marking(0))];
  }

  lemma SlowActs3(k: Key)
    ensures Act(600, Act(600, Act(600, SlowWorld2(k), CheckOwner(0, Stored)), PutOne(0, true, Stored)),
                PutClaim(1, 8, true, Stored)) == SlowWorld3(k)
  {
    SlowWin(k);
    assert Act(600, SlowWorldWon(k), PutClaim(1, 8, true, Stored)).callers == SlowWorld3(k).callers;
  }

  lemma {:induction false} ExtendThree(m: seq<Move>, a: Move, b: Move, c: Move)
    ensures History(600, Empty, m + [a, b, c]) == Act(600, Act(600, Act(600, History(600, Empty, m), a), b), c)
  {
    Extend(600, m, History(600, Empty, m), [a, b, c]);
    HistoryThree(600, History(600, Empty, m), a, b, c);
  }

  lemma SlowPart2(k: Key) returns (moves: seq<Move>, w: World)
    ensures w == History(600, Empty, moves) && w == SlowWorld2(k)
  {
    var m, w1 := SlowPart1(k);
    moves, w := m + [Enter(1, k), Read(1, Stored), PutClaim(0, 7, true, Stored)], SlowWorld2(k);
    ExtendThree(m, Enter(1, k), Read(1, Stored), PutClaim(0, 7, true, Stored));
    SlowActs2(k);
  }

  lemma SlowPart3(k: Key) returns (moves: seq<Move>, w: World)
    ensures w == History(600, Empty, moves) && w == SlowWorld3(k)
  {
    var m, w2 := SlowPart2(k);
    moves, w := m + [CheckOwner(0, Stored), PutOne(0, true, Stored), PutClaim(1, 8, true, Stored)], SlowWorld3(k);
    ExtendThree(m, CheckOwner(0, Stored), PutOne(0, true, Stored), PutClaim(1, 8, true, Stored));
    SlowActs3(k);
  }
}
