// Strings in lexicographic order of their units, and sequences sorted by it.
module TextOrder {
  type Text = seq<int>

  // The order in which Array.prototype.sort and table.sort put strings.
  predicate Less(a: Text, b: Text) {
    if b == [] then false
    else if a == [] then true
    else a[0] < b[0] || (a[0] == b[0] && Less(a[1..], b[1..]))
  }

  lemma {:induction false} LessTotal(a: Text, b: Text)
    ensures (if Less(a, b) then 1 else 0) + (if Less(b, a) then 1 else 0) + (if a == b then 1 else 0) == 1
  {
    if a != [] && b != [] {
      LessTotal(a[1..], b[1..]);
      assert a == [a[0]] + a[1..] && b == [b[0]] + b[1..];
    }
  }

  lemma {:induction false} LessTransitive(a: Text, b: Text, c: Text)
    requires Less(a, b) && Less(b, c)
    ensures Less(a, c)
  {
    if a != [] && a[0] == b[0] == c[0] { LessTransitive(a[1..], b[1..], c[1..]); }
  }

  predicate Sorted(ks: seq<Text>) {
    forall i, j :: 0 <= i < j < |ks| ==> Less(ks[i], ks[j])
  }

  predicate Distinct(ks: seq<Text>) {
    forall i, j :: 0 <= i < j < |ks| ==> ks[i] != ks[j]
  }

  function Insert(k: Text, ks: seq<Text>): seq<Text> {
    if ks == [] || Less(k, ks[0]) then [k] + ks else [ks[0]] + Insert(k, ks[1..])
  }

  function SortKeys(ks: seq<Text>): seq<Text> {
    if ks == [] then [] else Insert(ks[0], SortKeys(ks[1..]))
  }

  lemma {:induction false} InsertSorts(k: Text, ks: seq<Text>)
    requires Sorted(ks) && k !in ks
    ensures Sorted(Insert(k, ks)) && forall x :: x in Insert(k, ks) <==> x == k || x in ks
  {
    if ks != [] {
      LessTotal(k, ks[0]);
      if Less(k, ks[0]) {
        forall i | 0 < i < |ks| ensures Less(k, ks[i]) { LessTransitive(k, ks[0], ks[i]); }
      } else {
        InsertSorts(k, ks[1..]);
        var r := Insert(k, ks[1..]);
        forall i | 0 <= i < |r| ensures Less(ks[0], r[i]) {
          assert r[i] in r;
          if r[i] != k { var j :| 0 <= j < |ks[1..]| && ks[1..][j] == r[i]; }
        }
        assert ks == [ks[0]] + ks[1..];
      }
    }
  }

  lemma {:induction false} SortSorts(ks: seq<Text>)
    requires Distinct(ks)
    ensures Sorted(SortKeys(ks)) && forall x :: x in SortKeys(ks) <==> x in ks
  {
    if ks != [] {
      SortSorts(ks[1..]);
      assert ks == [ks[0]] + ks[1..];
      InsertSorts(ks[0], SortKeys(ks[1..]));
    }
  }

  lemma {:induction false} SortedTail(a: seq<Text>, x: Text)
    requires a != [] && Sorted(a)
    ensures x in a[1..] <==> x in a && x != a[0]
  {
    LessTotal(a[0], a[0]);
    assert a == [a[0]] + a[1..];
    if x in a[1..] {
      var i :| 0 <= i < |a[1..]| && a[1..][i] == x;
      assert Less(a[0], a[1 + i]);
    }
  }

  // A strictly sorted sequence is determined by the set of its elements.
  lemma {:induction false} SortedUnique(a: seq<Text>, b: seq<Text>)
    requires Sorted(a) && Sorted(b) && forall x :: x in a <==> x in b
    ensures a == b
  {
    assert |a| > 0 ==> a[0] in a;
    assert |b| > 0 ==> b[0] in b;
    if a != [] && b != [] {
      assert a[0] in b;
      assert b[0] in a;
      SortedTail(a, b[0]);
      SortedTail(b, a[0]);
      if a[0] != b[0] {
        var i :| 0 <= i < |b[1..]| && b[1..][i] == a[0];
        var j :| 0 <= j < |a[1..]| && a[1..][j] == b[0];
        assert Less(b[0], b[1 + i]) && Less(a[0], a[1 + j]);
        LessTotal(a[0], b[0]);
      }
      forall x ensures x in a[1..] <==> x in b[1..] {
        SortedTail(a, x);
        SortedTail(b, x);
      }
      SortedUnique(a[1..], b[1..]);
    }
  }

  // a and b agree up to place n, where a ends or has the smaller unit.
  predicate FirstDifference(a: Text, b: Text, n: nat) {
    n <= |a| && n < |b| && a[..n] == b[..n] && (n == |a| || a[n] < b[n])
  }

  lemma {:induction false} HeadsAgree(a: Text, b: Text, n: nat)
    requires FirstDifference(a, b, n) && n > 0
    ensures a != [] && b != [] && a[0] == b[0] && FirstDifference(a[1..], b[1..], n - 1)
  {
    assert a[..n][0] == a[0] && b[..n][0] == b[0];
    assert a[1..][..n - 1] == a[..n][1..] && b[1..][..n - 1] == b[..n][1..];
  }

  // The order is the lexicographic one.
  lemma {:induction false} LessExact(a: Text, b: Text)
    ensures Less(a, b) <==> exists n: nat :: FirstDifference(a, b, n)
  {
    forall n: nat | FirstDifference(a, b, n) && n > 0
      ensures a != [] && b != [] && a[0] == b[0] && FirstDifference(a[1..], b[1..], n - 1)
    {
      HeadsAgree(a, b, n);
    }
    if a != [] && b != [] && a[0] == b[0] {
      LessExact(a[1..], b[1..]);
      if n: nat :| FirstDifference(a[1..], b[1..], n) { DifferenceShifts(a, b, n); }
    } else if Less(a, b) {
      assert FirstDifference(a, b, 0);
    }
  }

  lemma {:induction false} DifferenceShifts(a: Text, b: Text, n: nat)
    requires a != [] && b != [] && a[0] == b[0] && FirstDifference(a[1..], b[1..], n)
    ensures FirstDifference(a, b, n + 1)
  {
    assert a[..n + 1] == [a[0]] + a[1..][..n] && b[..n + 1] == [b[0]] + b[1..][..n];
  }
}
