/** Taking elements out of a list and putting each back at the index it had in the original list,
    highest index first, after other elements were appended: when the original order returns.

    This is the undo of an accepted 'replace' proposal (packages/editor/src/editor.ts:362-366 with
    history.ts:72-85 and :177-179), as a fact about lists. */
module Reinsertion {
  import opened Editing
  import opened Seqs

  function Without<T>(xs: seq<T>, gone: set<T>): seq<T> {
    if xs == [] then []
    else if xs[0] in gone then Without(xs[1..], gone)
    else [xs[0]] + Without(xs[1..], gone)
  }

  lemma {:induction false} WithoutMember<T>(xs: seq<T>, gone: set<T>, x: T)
    ensures x in Without(xs, gone) <==> x in xs && x !in gone
  {
    if xs != [] {
      WithoutMember(xs[1..], gone, x);
      assert xs == [xs[0]] + xs[1..];
    }
  }

  /** The indices of the elements in `gone`, ascending. */
  function IndicesOf<T>(xs: seq<T>, gone: set<T>): (rs: seq<nat>)
    ensures forall i :: 0 <= i < |rs| ==> rs[i] < |xs| && xs[rs[i]] in gone
    ensures forall i, j :: 0 <= i < j < |rs| ==> rs[i] < rs[j]
  {
    if xs == [] then []
    else
      var last := |xs| - 1;
      IndicesOf(xs[..last], gone) + (if xs[last] in gone then [last] else [])
  }

  lemma {:induction false} IndexFound<T>(xs: seq<T>, gone: set<T>, k: nat) returns (i: nat)
    requires k < |xs| && xs[k] in gone
    ensures i < |IndicesOf(xs, gone)| && IndicesOf(xs, gone)[i] == k
  {
    var last := |xs| - 1;
    if k == last {
      i := |IndicesOf(xs, gone)| - 1;
    } else {
      i := IndexFound(xs[..last], gone, k);
    }
  }

  /** Puts xs[rs[i]] back at index rs[i], or at the end of a shorter list, for each i >= c from the
      last one down. */
  function Reinsert<T>(z: seq<T>, xs: seq<T>, rs: seq<nat>, c: nat): (r: seq<T>)
    requires c <= |rs| && forall i :: 0 <= i < |rs| ==> rs[i] < |xs|
    ensures |r| == |z| + |rs| - c
    decreases |rs| - c
  {
    if c == |rs| then z
    else
      var y := Reinsert(z, xs, rs, c + 1);
      InsertAt(y, Clamp(rs[c], |y|), xs[rs[c]])
  }

  // ---- filtering ----

  lemma {:induction false} WithoutConcat<T>(xs: seq<T>, ys: seq<T>, gone: set<T>)
    ensures Without(xs + ys, gone) == Without(xs, gone) + Without(ys, gone)
  {
    if xs == [] {
      assert [] + ys == ys;
    } else {
      WithoutConcat(xs[1..], ys, gone);
      assert (xs + ys)[1..] == xs[1..] + ys;
      var rest := Without(xs[1..], gone);
      assert [xs[0]] + (rest + Without(ys, gone)) == ([xs[0]] + rest) + Without(ys, gone);
    }
  }

  lemma {:induction false} WithoutNone<T>(xs: seq<T>, gone: set<T>)
    requires forall x :: x in xs ==> x !in gone
    ensures Without(xs, gone) == xs
  {
    if xs != [] { WithoutNone(xs[1..], gone); }
  }

  lemma {:induction false} WithoutAll<T>(xs: seq<T>, gone: set<T>)
    requires forall x :: x in xs ==> x in gone
    ensures Without(xs, gone) == []
  {
    if xs != [] { WithoutAll(xs[1..], gone); }
  }

  // ---- order ----

  predicate Before<T(==)>(xs: seq<T>, a: T, b: T) {
    exists i, j :: 0 <= i < j < |xs| && xs[i] == a && xs[j] == b
  }

  lemma BeforeConcat<T>(xs: seq<T>, ys: seq<T>, a: T, b: T)
    requires (a in xs && b in ys) || Before(xs, a, b) || Before(ys, a, b)
    ensures Before(xs + ys, a, b)
  {
    var all := xs + ys;
    if a in xs && b in ys {
      var i :| 0 <= i < |xs| && xs[i] == a;
      var j :| 0 <= j < |ys| && ys[j] == b;
      assert all[i] == a && all[|xs| + j] == b;
    } else if Before(xs, a, b) {
      var i, j :| 0 <= i < j < |xs| && xs[i] == a && xs[j] == b;
      assert all[i] == a && all[j] == b;
    } else {
      var i, j :| 0 <= i < j < |ys| && ys[i] == a && ys[j] == b;
      assert all[|xs| + i] == a && all[|xs| + j] == b;
    }
  }

  lemma BeforeInsert<T>(xs: seq<T>, k: nat, x: T, a: T, b: T)
    requires k <= |xs| && Before(xs, a, b)
    ensures Before(InsertAt(xs, k, x), a, b)
  {
    var i, j :| 0 <= i < j < |xs| && xs[i] == a && xs[j] == b;
    var all := InsertAt(xs, k, x);
    var i', j' := if i < k then i else i + 1, if j < k then j else j + 1;
    assert all[i'] == a && all[j'] == b;
  }

  lemma {:induction false} BeforeReinsert<T>(z: seq<T>, xs: seq<T>, rs: seq<nat>, c: nat, a: T, b: T)
    requires c <= |rs| && forall i :: 0 <= i < |rs| ==> rs[i] < |xs|
    requires Before(Reinsert(z, xs, rs, c), a, b)
    ensures Before(Reinsert(z, xs, rs, 0), a, b)
  {
    if c > 0 {
      var y := Reinsert(z, xs, rs, c);
      BeforeInsert(y, Clamp(rs[c - 1], |y|), xs[rs[c - 1]], a, b);
      BeforeReinsert(z, xs, rs, c - 1, a, b);
    }
  }

  lemma BeforeWithout<T>(xs: seq<T>, gone: set<T>, a: T, b: T)
    requires Before(xs, a, b) && a !in gone && b !in gone
    ensures Before(Without(xs, gone), a, b)
  {
    var i, j :| 0 <= i < j < |xs| && xs[i] == a && xs[j] == b;
    WithoutConcat(xs[..j], xs[j..], gone);
    assert xs[..j] + xs[j..] == xs && xs[..j][i] == a && xs[j..][0] == b;
    WithoutMember(xs[..j], gone, a);
    WithoutMember(xs[j..], gone, b);
    BeforeConcat(Without(xs[..j], gone), Without(xs[j..], gone), a, b);
  }

  lemma NotBoth<T>(xs: seq<T>, a: T, b: T)
    requires Distinct(xs) && Before(xs, a, b)
    ensures !Before(xs, b, a)
  {
  }

  /** One pair out of order at any moment spoils the result. */
  lemma WrongOrder<T>(z: seq<T>, xs: seq<T>, rs: seq<nat>, c: nat, added: seq<T>, a: T, b: T)
    requires Distinct(xs) && c <= |rs| && forall i :: 0 <= i < |rs| ==> rs[i] < |xs|
    requires Before(Reinsert(z, xs, rs, c), a, b) && Before(xs, b, a) && a !in added && b !in added
    ensures Without(Reinsert(z, xs, rs, 0), Elements(added)) != xs
  {
    BeforeReinsert(z, xs, rs, c, a, b);
    BeforeWithout(Reinsert(z, xs, rs, 0), Elements(added), a, b);
    NotBoth(xs, b, a);
  }

  // ---- the condition ----

  /** Whether undo returns the original order can be told beforehand: at most two more elements
      taken out than appended, and none kept above the second lowest taken out. */
  predicate Returns<T>(xs: seq<T>, gone: set<T>, appended: nat) {
    var rs := IndicesOf(xs, gone);
    |rs| <= appended + 2
    && (|rs| >= 2 ==> forall k :: rs[1] <= k < |xs| ==> xs[k] in gone)
  }

  // the list after appending and taking out, and after putting back and dropping the appended
  function Undone<T>(xs: seq<T>, gone: set<T>, added: seq<T>): seq<T> {
    Without(Reinsert(Without(xs, gone) + added, xs, IndicesOf(xs, gone), 0), Elements(added))
  }

  predicate Apart<T(==)>(xs: seq<T>, added: seq<T>) {
    Distinct(xs) && Distinct(added) && forall x :: x in added ==> x !in xs
  }

  // below the second lowest index taken out only the lowest is missing
  lemma KeptBelow<T>(xs: seq<T>, gone: set<T>)
    requires |IndicesOf(xs, gone)| >= 2
    ensures var rs := IndicesOf(xs, gone);
            Without(xs[..rs[1]], gone) == xs[..rs[0]] + xs[rs[0] + 1..rs[1]]
  {
    var rs := IndicesOf(xs, gone);
    forall k | 0 <= k < rs[1] && xs[k] in gone ensures k == rs[0] {
      var i := IndexFound(xs, gone, k);
    }
    OneBelow(xs, gone, rs[0], rs[1]);
  }

  lemma OneBelow<T>(xs: seq<T>, gone: set<T>, low: nat, r: nat)
    requires low < r <= |xs| && forall k :: 0 <= k < r ==> (xs[k] in gone <==> k == low)
    ensures Without(xs[..r], gone) == xs[..low] + xs[low + 1..r]
  {
    var lo, hi := xs[..low], xs[low + 1..r];
    assert xs[..r] == lo + ([xs[low]] + hi);
    WithoutConcat(lo, [xs[low]] + hi, gone);
    WithoutNone(lo, gone);
    WithoutNone(hi, gone);
    assert ([xs[low]] + hi)[1..] == hi;
  }

  // indices at or above t leave the first t elements where they are
  lemma {:induction false} ReinsertAbove<T>(z: seq<T>, xs: seq<T>, rs: seq<nat>, c: nat, t: nat)
    requires c <= |rs| && (forall i :: 0 <= i < |rs| ==> rs[i] < |xs|)
    requires t <= |z| && forall i :: c <= i < |rs| ==> t <= rs[i]
    ensures Reinsert(z, xs, rs, c)[..t] == z[..t]
    decreases |rs| - c
  {
    if c < |rs| { ReinsertAbove(z, xs, rs, c + 1, t); }
  }

  // ---- when it fails ----

  // the lowest of the elements kept above the second lowest one taken out
  lemma FirstKeptAbove<T>(xs: seq<T>, gone: set<T>, k: nat) returns (a: T)
    requires |IndicesOf(xs, gone)| >= 2 && IndicesOf(xs, gone)[1] <= k < |xs| && xs[k] !in gone
    ensures var r := IndicesOf(xs, gone)[1];
            1 <= r <= |Without(xs, gone)| && Without(xs, gone)[r - 1] == a && a in xs[r + 1..]
  {
    var rs := IndicesOf(xs, gone);
    var r := rs[1];
    var high := Without(xs[r..], gone);
    KeptBelow(xs, gone);
    WithoutConcat(xs[..r], xs[r..], gone);
    assert xs[..r] + xs[r..] == xs;
    assert xs[r..][k - r] == xs[k];
    WithoutMember(xs[r..], gone, xs[k]);
    a := high[0];
    assert xs[r..][1..] == xs[r + 1..];
    WithoutMember(xs[r + 1..], gone, a);
  }

  /** An element kept above the second lowest one taken out ends up below it. */
  lemma KeptAboveSpoils<T>(xs: seq<T>, gone: set<T>, added: seq<T>, k: nat)
    requires Apart(xs, added) && |IndicesOf(xs, gone)| >= 2
    requires IndicesOf(xs, gone)[1] <= k < |xs| && xs[k] !in gone
    ensures Undone(xs, gone, added) != xs
  {
    var rs := IndicesOf(xs, gone);
    var r, z := rs[1], Without(xs, gone) + added;
    var a := FirstKeptAbove(xs, gone, k);
    var i :| 0 <= i < |xs[r + 1..]| && xs[r + 1..][i] == a;
    assert xs[r + 1 + i] == a;
    assert Before(xs, xs[r], a);
    ReinsertAbove(z, xs, rs, 2, r);
    SecondLowestBack(z, xs, rs, a);
    WrongOrder(z, xs, rs, 1, added, a, xs[r]);
  }

  lemma SecondLowestBack<T>(z: seq<T>, xs: seq<T>, rs: seq<nat>, a: T)
    requires |rs| >= 2 && (forall i :: 0 <= i < |rs| ==> rs[i] < |xs|) && 1 <= rs[1] <= |z| && z[rs[1] - 1] == a
    requires Reinsert(z, xs, rs, 2)[..rs[1]] == z[..rs[1]]
    ensures Before(Reinsert(z, xs, rs, 1), a, xs[rs[1]])
  {
    var r, y := rs[1], Reinsert(z, xs, rs, 2);
    assert y[..r][r - 1] == z[..r][r - 1] == a;
    assert Reinsert(z, xs, rs, 1) == InsertAt(y, r, xs[r]);
    InsertedAfter(y, r, xs[r], a);
  }

  lemma InsertedAfter<T>(y: seq<T>, r: nat, x: T, a: T)
    requires 1 <= r <= |y| && y[r - 1] == a
    ensures Before(InsertAt(y, r, x), a, x)
  {
    var all := InsertAt(y, r, x);
    assert all[r - 1] == a && all[r] == x;
  }

  // everything from the second lowest index on is taken out: the indices are consecutive
  lemma {:induction false} Consecutive<T>(xs: seq<T>, gone: set<T>, j: nat)
    requires var rs := IndicesOf(xs, gone); 1 <= j < |rs| && forall k :: rs[1] <= k < |xs| ==> xs[k] in gone
    ensures IndicesOf(xs, gone)[j] == IndicesOf(xs, gone)[1] + j - 1
  {
    var rs := IndicesOf(xs, gone);
    if j > 1 {
      Consecutive(xs, gone, j - 1);
      var next := rs[j - 1] + 1;
      assert next <= rs[j];
      assert xs[next] in gone;
      var i := IndexFound(xs, gone, next);
      assert i == j;
    }
  }

  lemma LastIsTop<T>(xs: seq<T>, gone: set<T>)
    requires var rs := IndicesOf(xs, gone); |rs| >= 2 && forall k :: rs[1] <= k < |xs| ==> xs[k] in gone
    ensures |xs| == IndicesOf(xs, gone)[1] + |IndicesOf(xs, gone)| - 1
  {
    var rs := IndicesOf(xs, gone);
    var last := |rs| - 1;
    Consecutive(xs, gone, last);
    assert rs[1] <= |xs| - 1 && xs[|xs| - 1] in gone;
    var i := IndexFound(xs, gone, |xs| - 1);
    assert i == last;
  }

  // what is kept when everything from the second lowest index on is taken out
  lemma KeptIsLow<T>(xs: seq<T>, gone: set<T>)
    requires var rs := IndicesOf(xs, gone); |rs| >= 2 && forall k :: rs[1] <= k < |xs| ==> xs[k] in gone
    ensures var rs := IndicesOf(xs, gone); Without(xs, gone) == xs[..rs[0]] + xs[rs[0] + 1..rs[1]]
  {
    var r := IndicesOf(xs, gone)[1];
    KeptBelow(xs, gone);
    NoneKept(xs, gone, r);
  }

  lemma NoneKept<T>(xs: seq<T>, gone: set<T>, r: nat)
    requires r <= |xs| && forall k :: r <= k < |xs| ==> xs[k] in gone
    ensures Without(xs, gone) == Without(xs[..r], gone)
  {
    WithoutConcat(xs[..r], xs[r..], gone);
    WithoutAll(xs[r..], gone);
    assert xs[..r] + xs[r..] == xs;
    assert Without(xs[..r], gone) + [] == Without(xs[..r], gone);
  }

  /** Three elements more taken out than appended: the highest two both go back to the end, the
      highest first. */
  lemma TooManySpoil<T>(xs: seq<T>, gone: set<T>, added: seq<T>)
    requires Apart(xs, added)
    requires var rs := IndicesOf(xs, gone);
             |rs| >= |added| + 3 && forall k :: rs[1] <= k < |xs| ==> xs[k] in gone
    ensures Undone(xs, gone, added) != xs
  {
    var rs := IndicesOf(xs, gone);
    var p := |rs|;
    var z := Without(xs, gone) + added;
    KeptIsLow(xs, gone);
    Consecutive(xs, gone, p - 1);
    Consecutive(xs, gone, p - 2);
    TopTwoSwapped(z, xs, rs, p - 2);
    assert Before(xs, xs[rs[p - 2]], xs[rs[p - 1]]);
    WrongOrder(z, xs, rs, p - 2, added, xs[rs[p - 1]], xs[rs[p - 2]]);
  }

  lemma TopTwoSwapped<T>(z: seq<T>, xs: seq<T>, rs: seq<nat>, c: nat)
    requires |rs| == c + 2 && forall i :: 0 <= i < |rs| ==> rs[i] < |xs|
    requires rs[c + 1] >= |z| && rs[c] >= |z| + 1
    ensures Before(Reinsert(z, xs, rs, c), xs[rs[c + 1]], xs[rs[c]])
  {
    assert Reinsert(z, xs, rs, c + 2) == z;
    assert Reinsert(z, xs, rs, c + 1) == InsertAt(z, |z|, xs[rs[c + 1]]);
    assert Reinsert(z, xs, rs, c) == InsertAt(InsertAt(z, |z|, xs[rs[c + 1]]), |z| + 1, xs[rs[c]]);
    BothAtTheEnd(z, xs[rs[c + 1]], xs[rs[c]]);
  }

  lemma BothAtTheEnd<T>(z: seq<T>, x: T, y: T)
    ensures Before(InsertAt(InsertAt(z, |z|, x), |z| + 1, y), x, y)
  {
    var all := InsertAt(InsertAt(z, |z|, x), |z| + 1, y);
    assert all[|z|] == x && all[|z| + 1] == y;
  }

  // ---- when it holds ----

  function Least(a: nat, b: nat): nat {
    if a < b then a else b
  }

  predicate LowKept<T>(xs: seq<T>, gone: set<T>) {
    var rs := IndicesOf(xs, gone);
    |rs| >= 2 && forall k :: rs[1] <= k < |xs| ==> xs[k] in gone
  }

  // at step c: what was kept, the first of the appended ones, and what is already back in order
  ghost predicate BackFrom<T>(xs: seq<T>, gone: set<T>, added: seq<T>, c: nat, back: seq<T>)
    requires LowKept(xs, gone) && 1 <= c <= |IndicesOf(xs, gone)|
  {
    var rs := IndicesOf(xs, gone);
    Reinsert(Without(xs, gone) + added, xs, rs, c) == Without(xs, gone) + added[..Least(c, |added|)] + back
    && rs[1] + c - 1 <= |xs|
    && Without(back, Elements(added)) == xs[rs[1] + c - 1..]
  }

  lemma BackFromTop<T>(xs: seq<T>, gone: set<T>, added: seq<T>) returns (back: seq<T>)
    requires Apart(xs, added) && LowKept(xs, gone) && |IndicesOf(xs, gone)| <= |added| + 2
    ensures BackFrom(xs, gone, added, |IndicesOf(xs, gone)|, back)
  {
    var m := Least(|IndicesOf(xs, gone)|, |added|);
    back := added[m..];
    LastIsTop(xs, gone);
    WithoutAll(back, Elements(added));
    Regroup(Without(xs, gone), added, m);
  }

  lemma Regroup<T>(a: seq<T>, b: seq<T>, m: nat)
    requires m <= |b|
    ensures a + b[..m] + b[m..] == a + b
  {
  }

  // inserting between two parts
  lemma InsertBetween<T>(a: seq<T>, b: seq<T>, k: nat, x: T)
    requires k <= |b|
    ensures InsertAt(a + b, |a| + k, x) == a + b[..k] + ([x] + b[k..])
  {
  }

  // where the next one goes back: right after what was kept and the first c appended ones
  lemma NextPlace<T>(xs: seq<T>, gone: set<T>, added: seq<T>, c: nat)
    requires LowKept(xs, gone) && 1 <= c < |IndicesOf(xs, gone)| <= |added| + 2
    ensures var rs := IndicesOf(xs, gone);
            Clamp(rs[c], |Reinsert(Without(xs, gone) + added, xs, rs, c + 1)|)
            == |Without(xs, gone)| + Least(c, |added|)
            && rs[c] == rs[1] + c - 1
  {
    Consecutive(xs, gone, c);
    KeptIsLow(xs, gone);
  }

  lemma BackFromNext<T>(xs: seq<T>, gone: set<T>, added: seq<T>, c: nat, back: seq<T>) returns (more: seq<T>)
    requires Apart(xs, added) && LowKept(xs, gone) && |IndicesOf(xs, gone)| <= |added| + 2
    requires 1 <= c < |IndicesOf(xs, gone)| && BackFrom(xs, gone, added, c + 1, back)
    ensures BackFrom(xs, gone, added, c, more)
  {
    var rs := IndicesOf(xs, gone);
    var kept, m, m' := Without(xs, gone), Least(c, |added|), Least(c + 1, |added|);
    more := [xs[rs[c]]] + (added[m..m'] + back);
    NextPlace(xs, gone, added, c);
    InsertAmong(kept, added, back, m, m', xs[rs[c]]);
    assert Reinsert(kept + added, xs, rs, c) == InsertAt(kept + added[..m'] + back, |kept| + m, xs[rs[c]]);
    BackMore(xs, added, added[m..m'], back, rs[c]);
  }

  lemma InsertAmong<T>(kept: seq<T>, added: seq<T>, back: seq<T>, m: nat, m': nat, x: T)
    requires m <= m' <= |added|
    ensures InsertAt(kept + added[..m'] + back, |kept| + m, x) == kept + added[..m] + ([x] + (added[m..m'] + back))
  {
    assert kept + added[..m'] + back == kept + (added[..m'] + back);
    InsertBetween(kept, added[..m'] + back, m, x);
    assert (added[..m'] + back)[..m] == added[..m];
    assert (added[..m'] + back)[m..] == added[m..m'] + back;
  }

  lemma BackMore<T>(xs: seq<T>, added: seq<T>, some: seq<T>, back: seq<T>, k: nat)
    requires Apart(xs, added) && k < |xs| && (forall x :: x in some ==> x in added)
    requires Without(back, Elements(added)) == xs[k + 1..]
    ensures Without([xs[k]] + (some + back), Elements(added)) == xs[k..]
  {
    DropAdded(some, back, added);
    assert ([xs[k]] + (some + back))[1..] == some + back;
    assert xs[k..] == [xs[k]] + xs[k + 1..];
  }

  lemma {:induction false} AllBack<T>(xs: seq<T>, gone: set<T>, added: seq<T>, c: nat) returns (back: seq<T>)
    requires Apart(xs, added) && LowKept(xs, gone) && 1 <= c <= |IndicesOf(xs, gone)| <= |added| + 2
    ensures BackFrom(xs, gone, added, c, back)
    decreases |IndicesOf(xs, gone)| - c
  {
    if c == |IndicesOf(xs, gone)| {
      back := BackFromTop(xs, gone, added);
    } else {
      var later := AllBack(xs, gone, added, c + 1);
      back := BackFromNext(xs, gone, added, c, later);
    }
  }

  lemma ReturnsMany<T>(xs: seq<T>, gone: set<T>, added: seq<T>)
    requires Apart(xs, added) && |IndicesOf(xs, gone)| >= 2 && Returns(xs, gone, |added|)
    ensures Undone(xs, gone, added) == xs
  {
    var rs := IndicesOf(xs, gone);
    var back := AllBack(xs, gone, added, 1);
    KeptIsLow(xs, gone);
    var some := added[..Least(1, |added|)];
    var y := Reinsert(Without(xs, gone) + added, xs, rs, 1);
    Grouped(xs[..rs[0]] + xs[rs[0] + 1..rs[1]], some, back);
    LowestBack(xs, rs[0], rs[1], some + back, y);
    DropAdded(some, back, added);
    LowThenRest(xs, rs[1], some + back, added);
  }

  lemma Grouped<T>(a: seq<T>, b: seq<T>, c: seq<T>)
    ensures a + b + c == a + (b + c)
  {
  }

  lemma DropAdded<T>(some: seq<T>, back: seq<T>, added: seq<T>)
    requires forall x :: x in some ==> x in added
    ensures Without(some + back, Elements(added)) == Without(back, Elements(added))
  {
    WithoutConcat(some, back, Elements(added));
    WithoutAll(some, Elements(added));
    assert [] + Without(back, Elements(added)) == Without(back, Elements(added));
  }

  lemma LowestBack<T>(xs: seq<T>, low: nat, r: nat, tail: seq<T>, y: seq<T>)
    requires low < r <= |xs| && y == xs[..low] + xs[low + 1..r] + tail
    ensures InsertAt(y, Clamp(low, |y|), xs[low]) == xs[..r] + tail
  {
  }

  lemma LowThenRest<T>(xs: seq<T>, r: nat, tail: seq<T>, added: seq<T>)
    requires Apart(xs, added) && r <= |xs| && Without(tail, Elements(added)) == xs[r..]
    ensures Without(xs[..r] + tail, Elements(added)) == xs
  {
    WithoutConcat(xs[..r], tail, Elements(added));
    WithoutNone(xs[..r], Elements(added));
    assert xs[..r] + xs[r..] == xs;
  }

  lemma ReturnsNone<T>(xs: seq<T>, gone: set<T>, added: seq<T>)
    requires Apart(xs, added) && IndicesOf(xs, gone) == []
    ensures Undone(xs, gone, added) == xs
  {
    forall x | x in xs ensures x !in gone {
      var k :| 0 <= k < |xs| && xs[k] == x;
      if x in gone { var i := IndexFound(xs, gone, k); }
    }
    WithoutNone(xs, gone);
    WithoutAll(added, Elements(added));
    assert xs[..|xs|] == xs;
    LowThenRest(xs, |xs|, added, added);
  }

  lemma ReturnsOne<T>(xs: seq<T>, gone: set<T>, added: seq<T>)
    requires Apart(xs, added) && |IndicesOf(xs, gone)| == 1
    ensures Undone(xs, gone, added) == xs
  {
    var rs := IndicesOf(xs, gone);
    var z := Without(xs, gone) + added;
    OneGone(xs, gone);
    LowestBack(xs, rs[0], |xs|, added, z);
    assert Reinsert(z, xs, rs, 1) == z;
    WithoutAll(added, Elements(added));
    LowThenRest(xs, |xs|, added, added);
  }

  lemma OneGone<T>(xs: seq<T>, gone: set<T>)
    requires |IndicesOf(xs, gone)| == 1
    ensures var low := IndicesOf(xs, gone)[0];
            Without(xs, gone) == xs[..low] + xs[low + 1..|xs|]
  {
    var rs := IndicesOf(xs, gone);
    forall k | 0 <= k < |xs| && xs[k] in gone ensures k == rs[0] {
      var i := IndexFound(xs, gone, k);
    }
    OneBelow(xs, gone, rs[0], |xs|);
    assert xs[..|xs|] == xs;
  }

  /** Undo brings the original list back exactly when the condition holds. */
  lemma UndoneIff<T>(xs: seq<T>, gone: set<T>, added: seq<T>)
    requires Apart(xs, added)
    ensures Undone(xs, gone, added) == xs <==> Returns(xs, gone, |added|)
  {
    var rs := IndicesOf(xs, gone);
    if |rs| == 0 {
      ReturnsNone(xs, gone, added);
    } else if |rs| == 1 {
      ReturnsOne(xs, gone, added);
    } else if k :| rs[1] <= k < |xs| && xs[k] !in gone {
      KeptAboveSpoils(xs, gone, added, k);
    } else if |rs| <= |added| + 2 {
      ReturnsMany(xs, gone, added);
    } else {
      TooManySpoil(xs, gone, added);
    }
  }

  /** With every element taken out, exactly when there are at most two more than were appended. */
  lemma ReturnsAllIff<T>(xs: seq<T>, appended: nat)
    ensures Returns(xs, Elements(xs), appended) <==> |xs| <= appended + 2
  {
    AllIndices(xs, |xs|, Elements(xs));
    assert xs[..|xs|] == xs;
  }

  lemma {:induction false} AllIndices<T>(xs: seq<T>, n: nat, gone: set<T>)
    requires n <= |xs| && forall x :: x in xs ==> x in gone
    ensures |IndicesOf(xs[..n], gone)| == n
  {
    if n > 0 {
      AllIndices(xs, n - 1, gone);
      assert xs[..n][..n - 1] == xs[..n - 1];
    }
  }

  // ---- whatever the order, nothing is lost ----

  // the elements put back
  function Picked<T>(xs: seq<T>, rs: seq<nat>): seq<T>
    requires forall i :: 0 <= i < |rs| ==> rs[i] < |xs|
  {
    seq(|rs|, i requires 0 <= i < |rs| => xs[rs[i]])
  }

  lemma InsertedCount<T>(xs: seq<T>, k: nat, y: T, x: T)
    requires k <= |xs|
    ensures multiset(InsertAt(xs, k, y))[x] == multiset(xs)[x] + if x == y then 1 else 0
  {
    assert xs == xs[..k] + xs[k..];
    assert multiset(xs) == multiset(xs[..k]) + multiset(xs[k..]);
    assert multiset(InsertAt(xs, k, y)) == multiset(xs[..k]) + multiset{y} + multiset(xs[k..]);
  }

  lemma PickedLast<T>(xs: seq<T>, rs: seq<nat>, c: nat, x: T)
    requires c < |rs| && forall i :: 0 <= i < |rs| ==> rs[i] < |xs|
    ensures multiset(Picked(xs, rs[c..]))[x] == multiset(Picked(xs, rs[c + 1..]))[x] + if x == xs[rs[c]] then 1 else 0
  {
    assert Picked(xs, rs[c..]) == [xs[rs[c]]] + Picked(xs, rs[c + 1..]);
  }

  lemma {:induction false} ReinsertCount<T>(z: seq<T>, xs: seq<T>, rs: seq<nat>, c: nat, x: T)
    requires c <= |rs| && forall i :: 0 <= i < |rs| ==> rs[i] < |xs|
    ensures multiset(Reinsert(z, xs, rs, c))[x] == multiset(z)[x] + multiset(Picked(xs, rs[c..]))[x]
    decreases |rs| - c
  {
    if c < |rs| {
      ReinsertCount(z, xs, rs, c + 1, x);
      var y := Reinsert(z, xs, rs, c + 1);
      InsertedCount(y, Clamp(rs[c], |y|), xs[rs[c]], x);
      PickedLast(xs, rs, c, x);
    }
  }

  lemma {:induction false} WithoutCount<T>(xs: seq<T>, gone: set<T>, x: T)
    ensures multiset(Without(xs, gone))[x] == if x in gone then 0 else multiset(xs)[x]
  {
    if xs != [] {
      WithoutCount(xs[1..], gone, x);
      assert xs == [xs[0]] + xs[1..];
    }
  }

  lemma PickedAppend<T>(xs: seq<T>, rs: seq<nat>, last: nat, x: T)
    requires last < |xs| && forall i :: 0 <= i < |rs| ==> rs[i] < last
    ensures Picked(xs, rs) == Picked(xs[..last], rs)
    ensures multiset(Picked(xs, rs + [last]))[x] == multiset(Picked(xs, rs))[x] + if x == xs[last] then 1 else 0
  {
    assert Picked(xs, rs + [last]) == Picked(xs, rs) + [xs[last]];
  }

  lemma {:induction false} PickedCount<T>(xs: seq<T>, gone: set<T>, x: T)
    ensures multiset(Picked(xs, IndicesOf(xs, gone)))[x] == if x in gone then multiset(xs)[x] else 0
  {
    if xs != [] {
      var last := |xs| - 1;
      PickedCount(xs[..last], gone, x);
      PickedCountLast(xs[..last], xs[last], gone, x);
      assert xs == xs[..last] + [xs[last]];
    }
  }

  lemma PickedCountLast<T>(xs: seq<T>, y: T, gone: set<T>, x: T)
    requires multiset(Picked(xs, IndicesOf(xs, gone)))[x] == if x in gone then multiset(xs)[x] else 0
    ensures multiset(Picked(xs + [y], IndicesOf(xs + [y], gone)))[x] == if x in gone then multiset(xs + [y])[x] else 0
  {
    var all := xs + [y];
    assert all[..|xs|] == xs;
    PickedAppend(all, IndicesOf(xs, gone), |xs|, x);
    if y !in gone { assert IndicesOf(all, gone) == IndicesOf(xs, gone); }
  }

  lemma ReinsertAllCount<T>(xs: seq<T>, gone: set<T>, added: seq<T>, x: T)
    ensures multiset(Reinsert(Without(xs, gone) + added, xs, IndicesOf(xs, gone), 0))[x] == multiset(xs + added)[x]
  {
    var rs, z := IndicesOf(xs, gone), Without(xs, gone) + added;
    ReinsertCount(z, xs, rs, 0, x);
    assert rs[0..] == rs;
    WithoutCount(xs, gone, x);
    PickedCount(xs, gone, x);
    assert multiset(z) == multiset(Without(xs, gone)) + multiset(added);
    assert multiset(xs + added) == multiset(xs) + multiset(added);
  }

  /** However many were taken out, undo brings back exactly the original elements, in some
      order. */
  lemma NothingLost<T>(xs: seq<T>, gone: set<T>, added: seq<T>, x: T)
    requires Apart(xs, added)
    ensures multiset(Undone(xs, gone, added))[x] == multiset(xs)[x]
  {
    ReinsertAllCount(xs, gone, added, x);
    WithoutCount(Reinsert(Without(xs, gone) + added, xs, IndicesOf(xs, gone), 0), Elements(added), x);
    assert multiset(xs + added) == multiset(xs) + multiset(added);
    assert x in added ==> x !in xs;
  }

  /** Four taken out and one appended: the upper two come back swapped. */
  lemma FourByOne<T>(a: T, b: T, c: T, d: T, e: T)
    requires Distinct([a, b, c, d, e]) && e !in [a, b, c, d]
    ensures Undone([a, b, c, d], {a, b, c, d}, [e]) == [a, b, d, c]
  {
    var xs, gone := [a, b, c, d], {a, b, c, d};
    WithoutAll(xs, gone);
    FourIndices(xs, gone);
    assert [] + [e] == [e];
    FourBack(a, b, c, d, e);
    assert e != [a, b, c, d][0] && e != [a, b, c, d][1] && e != [a, b, c, d][2] && e != [a, b, c, d][3];
    DropMiddle(a, e, [b, d, c]);
    assert [a, e, b, d, c] == [a] + ([e] + [b, d, c]) && [a, b, d, c] == [a] + [b, d, c];
    assert Elements([e]) == {e};
  }

  lemma FourIndices<T>(xs: seq<T>, gone: set<T>)
    requires |xs| == 4 && forall x :: x in xs ==> x in gone
    ensures IndicesOf(xs, gone) == [0, 1, 2, 3]
  {
    assert xs[..0] == [] && xs[..4] == xs;
    IndicesOfPrefix(xs, 0, gone);
    IndicesOfPrefix(xs, 1, gone);
    IndicesOfPrefix(xs, 2, gone);
    IndicesOfPrefix(xs, 3, gone);
  }

  lemma FourBack<T>(a: T, b: T, c: T, d: T, e: T)
    ensures Reinsert([e], [a, b, c, d], [0, 1, 2, 3], 0) == [a, e, b, d, c]
  {
    var xs, rs: seq<nat> := [a, b, c, d], [0, 1, 2, 3];
    var z4, z3, z2, z1 := [e], Reinsert([e], xs, rs, 3), Reinsert([e], xs, rs, 2), Reinsert([e], xs, rs, 1);
    assert z3 == InsertAt(z4, 1, d) == [e, d];
    assert z2 == InsertAt(z3, 2, c) == [e, d, c];
    assert z1 == InsertAt(z2, 1, b) == [e, b, d, c];
  }

  lemma DropMiddle<T>(a: T, e: T, rest: seq<T>)
    requires a != e && e !in rest
    ensures Without([a] + ([e] + rest), {e}) == [a] + rest
  {
    WithoutConcat([a], [e] + rest, {e});
    WithoutNone([a], {e});
    WithoutNone(rest, {e});
    assert ([e] + rest)[1..] == rest;
  }

  lemma IndicesOfPrefix<T>(xs: seq<T>, n: nat, gone: set<T>)
    requires n < |xs|
    ensures IndicesOf(xs[..n + 1], gone) == IndicesOf(xs[..n], gone) + if xs[n] in gone then [n] else []
  {
    assert xs[..n + 1][..n] == xs[..n];
  }
}
