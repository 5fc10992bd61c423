// What a fixed-window limiter guarantees, whoever implements it: the registry's
// rate buckets and the worker's KV counters are both shown to keep such a log.
module FixedWindow {

  // One admitted request: when it came, and the end of the window it was counted in.
  datatype Hit = Hit(time: int, end: int)

  function CountWindow(log: seq<Hit>, end: int): nat {
    if log == [] then 0
    else CountWindow(log[..|log| - 1], end) + if log[|log| - 1].end == end then 1 else 0
  }

  // Requests admitted in the half-open interval [from, to).
  function CountBetween(log: seq<Hit>, from: int, to: int): nat {
    if log == [] then 0
    else CountBetween(log[..|log| - 1], from, to) + if from <= log[|log| - 1].time < to then 1 else 0
  }

  // Windows of a given length that never overlap ...
  ghost predicate Windows(length: int, log: seq<Hit>) {
    (forall i :: 0 <= i < |log| ==> log[i].time < log[i].end <= log[i].time + length) &&
    forall i, j :: 0 <= i < |log| && 0 <= j < |log| && log[i].end < log[j].end ==> log[i].end + length <= log[j].end
  }

  // ... each with at most `max` requests.
  ghost predicate WindowLog(length: int, max: nat, log: seq<Hit>) {
    Windows(length, log) && forall e :: CountWindow(log, e) <= max
  }

  predicate InTwo(log: seq<Hit>, from: int, to: int, e: int, f: int) {
    forall i :: 0 <= i < |log| && from <= log[i].time < to ==> log[i].end == e || log[i].end == f
  }

  lemma {:induction false} CountSplits(log: seq<Hit>, from: int, to: int, e: int, f: int)
    requires InTwo(log, from, to, e, f)
    ensures CountBetween(log, from, to) <= CountWindow(log, e) + CountWindow(log, f)
  {
    if log != [] {
      var n := |log| - 1;
      assert forall i :: 0 <= i < n ==> log[..n][i] == log[i];
      CountSplits(log[..n], from, to, e, f);
    }
  }

  predicate HitIn(log: seq<Hit>, i: int, from: int, to: int) { 0 <= i < |log| && from <= log[i].time < to }

  // Two windows are all an interval can meet: three would not fit.
  lemma {:induction false} NoThird(length: int, max: nat, log: seq<Hit>, from: int, i: int, j: int, k: int)
    requires WindowLog(length, max, log)
    requires HitIn(log, i, from, from + length) && HitIn(log, j, from, from + length)
    requires HitIn(log, k, from, from + length)
    ensures log[i].end == log[j].end || log[k].end == log[i].end || log[k].end == log[j].end
  {
  }

  // Any interval no longer than one window admits at most twice the limit.
  lemma {:induction false} AtMostTwice(length: int, max: nat, log: seq<Hit>, from: int)
    requires WindowLog(length, max, log)
    ensures CountBetween(log, from, from + length) <= 2 * max
  {
    var to := from + length;
    if i :| HitIn(log, i, from, to) {
      var e := log[i].end;
      if j :| HitIn(log, j, from, to) && log[j].end != e {
        forall k | HitIn(log, k, from, to) ensures log[k].end == e || log[k].end == log[j].end {
          NoThird(length, max, log, from, i, j, k);
        }
        TwoWindows(log, from, to, e, log[j].end);
      } else {
        TwoWindows(log, from, to, e, e + 1);
      }
    } else {
      TwoWindows(log, from, to, 0, 1);
    }
  }

  lemma {:induction false} TwoWindows(log: seq<Hit>, from: int, to: int, e: int, f: int)
    requires forall k :: HitIn(log, k, from, to) ==> log[k].end == e || log[k].end == f
    ensures CountBetween(log, from, to) <= CountWindow(log, e) + CountWindow(log, f)
  {
    assert forall k :: 0 <= k < |log| && from <= log[k].time < to ==> HitIn(log, k, from, to);
    CountSplits(log, from, to, e, f);
  }

  lemma {:induction false} CountWindowOneMore(log: seq<Hit>, h: Hit, e: int)
    ensures CountWindow(log + [h], e) == CountWindow(log, e) + if h.end == e then 1 else 0
  {
    assert (log + [h])[..|log|] == log;
  }

  // Extending a log: in the newest window while it has room, or in a later one.
  lemma {:induction false} Admit(length: int, max: nat, log: seq<Hit>, h: Hit)
    requires WindowLog(length, max, log) && h.time < h.end <= h.time + length
    requires forall i :: 0 <= i < |log| ==> log[i].end == h.end || log[i].end + length <= h.end
    requires CountWindow(log, h.end) < max
    ensures WindowLog(length, max, log + [h])
  {
    OneMoreWindow(length, log, h);
    forall e ensures CountWindow(log + [h], e) <= max { CountWindowOneMore(log, h, e); }
  }

  lemma {:induction false} OneMoreWindow(length: int, log: seq<Hit>, h: Hit)
    requires Windows(length, log) && h.time < h.end <= h.time + length
    requires forall i :: 0 <= i < |log| ==> log[i].end == h.end || log[i].end + length <= h.end
    ensures Windows(length, log + [h])
  {
    var more := log + [h];
    forall i | 0 <= i < |more| ensures more[i] == if i < |log| then log[i] else h {}
  }

  lemma {:induction false} NoSuchWindow(log: seq<Hit>, e: int)
    requires forall i :: 0 <= i < |log| ==> log[i].end != e
    ensures CountWindow(log, e) == 0
  {
    if log != [] { NoSuchWindow(log[..|log| - 1], e); }
  }
}
