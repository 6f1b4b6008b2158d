/** A composite command as the list of its children, for lists that a proof takes apart
    (packages/editor/src/history.ts:171-181). */
module CommandLists {
  import opened Drawing
  import opened Editing
  import opened Exactness
  import opened Reinsertion
  import opened Seqs

  predicate HoldsAll(data: map<Layer, LayerValue>, cs: seq<Command>) {
    forall k :: 0 <= k < |cs| ==> Holds(data, cs[k])
  }

  lemma HoldsAllSameKeys(data: map<Layer, LayerValue>, data': map<Layer, LayerValue>, cs: seq<Command>)
    requires data.Keys == data'.Keys && HoldsAll(data, cs)
    ensures HoldsAll(data', cs)
  {
    forall k | 0 <= k < |cs| ensures Holds(data', cs[k]) { HoldsSameKeys(data, data', cs[k]); }
  }

  // left to right
  function ApplyAll(s: Sheet, cs: seq<Command>): (r: Sheet)
    requires Known(s) && HoldsAll(s.data, cs)
    ensures Known(r) && r.data.Keys == s.data.Keys
    decreases |cs|
  {
    if cs == [] then s
    else
      var last := |cs| - 1;
      var before := ApplyAll(s, cs[..last]);
      HoldsSameKeys(s.data, before.data, cs[last]);
      Apply(before, cs[last])
  }

  // right to left
  function InvertAll(s: Sheet, cs: seq<Command>): (r: Sheet)
    requires Known(s) && HoldsAll(s.data, cs)
    ensures Known(r) && r.data.Keys == s.data.Keys
    decreases |cs|
  {
    if cs == [] then s
    else
      var last := |cs| - 1;
      var after := Invert(s, cs[last]);
      HoldsAllSameKeys(s.data, after.data, cs[..last]);
      InvertAll(after, cs[..last])
  }

  lemma {:induction false} FirstIsAll(s: Sheet, cs: seq<Command>, k: nat)
    requires Known(s) && HoldsAll(s.data, cs) && k <= |cs|
    ensures ApplyFirst(s, cs, k, Composite(cs)) == ApplyAll(s, cs[..k])
    ensures InvertFirst(s, cs, k, Composite(cs)) == InvertAll(s, cs[..k])
    decreases k
  {
    if k > 0 {
      assert cs[..k][..k - 1] == cs[..k - 1] && cs[..k][k - 1] == cs[k - 1];
      FirstIsAll(s, cs, k - 1);
      var after := Invert(s, cs[k - 1]);
      HoldsAllSameKeys(s.data, after.data, cs);
      FirstIsAll(after, cs, k - 1);
    }
  }

  lemma CompositeIsAll(s: Sheet, cs: seq<Command>)
    requires Known(s) && HoldsAll(s.data, cs)
    ensures Apply(s, Composite(cs)) == ApplyAll(s, cs)
    ensures Invert(s, Composite(cs)) == InvertAll(s, cs)
  {
    FirstIsAll(s, cs, |cs|);
    assert cs[..|cs|] == cs;
  }

  lemma ApplyLast(s: Sheet, cs: seq<Command>, c: Command)
    requires Known(s) && HoldsAll(s.data, cs) && Holds(s.data, c)
    ensures HoldsAll(s.data, cs + [c]) && Holds(ApplyAll(s, cs).data, c)
    ensures ApplyAll(s, cs + [c]) == Apply(ApplyAll(s, cs), c)
  {
    HoldsSameKeys(s.data, ApplyAll(s, cs).data, c);
    assert (cs + [c])[..|cs|] == cs;
  }

  lemma SplitLast<T>(xs: seq<T>, ys: seq<T>)
    requires ys != []
    ensures ys[..|ys| - 1] + [ys[|ys| - 1]] == ys
    ensures xs + ys[..|ys| - 1] + [ys[|ys| - 1]] == xs + ys
  {
  }

  lemma {:induction false} ApplyConcat(s: Sheet, cs: seq<Command>, ds: seq<Command>)
    requires Known(s) && HoldsAll(s.data, cs) && HoldsAll(s.data, ds)
    ensures HoldsAll(ApplyAll(s, cs).data, ds) && HoldsAll(s.data, cs + ds)
    ensures ApplyAll(s, cs + ds) == ApplyAll(ApplyAll(s, cs), ds)
    decreases |ds|
  {
    HoldsAllSameKeys(s.data, ApplyAll(s, cs).data, ds);
    if ds == [] {
      assert cs + [] == cs;
    } else {
      var last := |ds| - 1;
      SplitLast(cs, ds);
      ApplyConcat(s, cs, ds[..last]);
      ConcatOneMore(s, cs, ds[..last], ds[last]);
    }
  }

  lemma ConcatOneMore(s: Sheet, cs: seq<Command>, ds: seq<Command>, c: Command)
    requires Known(s) && HoldsAll(s.data, cs) && HoldsAll(s.data, cs + ds) && HoldsAll(ApplyAll(s, cs).data, ds)
    requires Holds(s.data, c) && ApplyAll(s, cs + ds) == ApplyAll(ApplyAll(s, cs), ds)
    ensures HoldsAll(s.data, cs + ds + [c]) && HoldsAll(ApplyAll(s, cs).data, ds + [c])
    ensures ApplyAll(s, cs + ds + [c]) == ApplyAll(ApplyAll(s, cs), ds + [c])
  {
    HoldsSameKeys(s.data, ApplyAll(s, cs).data, c);
    ApplyLast(s, cs + ds, c);
    ApplyLast(ApplyAll(s, cs), ds, c);
  }

  lemma {:induction false} InvertConcat(s: Sheet, cs: seq<Command>, ds: seq<Command>)
    requires Known(s) && HoldsAll(s.data, cs) && HoldsAll(s.data, ds)
    ensures HoldsAll(InvertAll(s, ds).data, cs) && HoldsAll(s.data, cs + ds)
    ensures InvertAll(s, cs + ds) == InvertAll(InvertAll(s, ds), cs)
    decreases 2 * |ds|
  {
    if ds == [] {
      assert cs + [] == cs;
    } else {
      SplitLast(cs, ds);
      InvertConcatLast(s, cs, ds[..|ds| - 1], ds[|ds| - 1]);
    }
  }

  lemma {:induction false} InvertConcatLast(s: Sheet, cs: seq<Command>, ds: seq<Command>, c: Command)
    requires Known(s) && HoldsAll(s.data, cs) && HoldsAll(s.data, ds) && Holds(s.data, c)
    ensures HoldsAll(s.data, cs + ds + [c]) && HoldsAll(s.data, ds + [c]) && HoldsAll(InvertAll(s, ds + [c]).data, cs)
    ensures InvertAll(s, cs + ds + [c]) == InvertAll(InvertAll(s, ds + [c]), cs)
    decreases 2 * |ds| + 1
  {
    HoldsAllSameKeys(s.data, Invert(s, c).data, cs);
    HoldsAllSameKeys(s.data, Invert(s, c).data, ds);
    InvertConcat(Invert(s, c), cs, ds);
    InvertLast(s, ds, c);
    InvertLast(s, cs + ds, c);
  }

  lemma InvertLast(s: Sheet, cs: seq<Command>, c: Command)
    requires Known(s) && HoldsAll(s.data, cs) && Holds(s.data, c)
    ensures HoldsAll(s.data, cs + [c]) && HoldsAll(Invert(s, c).data, cs)
    ensures InvertAll(s, cs + [c]) == InvertAll(Invert(s, c), cs)
  {
    HoldsAllSameKeys(s.data, Invert(s, c).data, cs);
    assert (cs + [c])[..|cs|] == cs;
  }

  // ---- lists of layers with unique ids ----

  lemma UniqueDistinct(layers: seq<Layer>)
    requires UniqueIds(layers)
    ensures Distinct(layers)
  {
  }

  lemma UniqueAt(layers: seq<Layer>, i: nat)
    requires UniqueIds(layers) && i < |layers|
    ensures IndexOf(layers, layers[i].id) == i
  {
  }

  lemma {:induction false} WithoutTwice<T>(xs: seq<T>, a: set<T>, b: set<T>)
    ensures Without(Without(xs, a), b) == Without(xs, a + b)
  {
    if xs != [] {
      WithoutTwice(xs[1..], a, b);
      if xs[0] !in a {
        var rest := Without(xs[1..], a);
        assert ([xs[0]] + rest)[1..] == rest;
      }
    }
  }

  lemma {:induction false} WithoutUnique(xs: seq<Layer>, gone: set<Layer>)
    requires UniqueIds(xs)
    ensures UniqueIds(Without(xs, gone))
  {
    if xs != [] {
      WithoutUnique(xs[1..], gone);
      var rest := Without(xs[1..], gone);
      forall j | 0 <= j < |rest| ensures rest[j].id != xs[0].id {
        WithoutMember(xs[1..], gone, rest[j]);
        var k :| 0 <= k < |xs[1..]| && xs[1..][k] == rest[j];
        assert xs[k + 1] == rest[j];
      }
    }
  }

  /** Splicing out the layer with an id takes out just that layer. */
  lemma RemoveIsWithout(xs: seq<Layer>, i: nat)
    requires i < |xs| && UniqueIds(xs)
    ensures RemoveAt(xs, i) == Without(xs, {xs[i]})
  {
    UniqueDistinct(xs);
    assert xs == xs[..i] + ([xs[i]] + xs[i + 1..]);
    WithoutConcat(xs[..i], [xs[i]] + xs[i + 1..], {xs[i]});
    WithoutNone(xs[..i], {xs[i]});
    WithoutNone(xs[i + 1..], {xs[i]});
    assert ([xs[i]] + xs[i + 1..])[1..] == xs[i + 1..];
  }

  // the same layer objects, in any order
  predicate SameLayers(xs: seq<Layer>, ys: seq<Layer>) {
    (forall l :: l in xs ==> l in ys) && (forall l :: l in ys ==> l in xs)
  }

  /** An id names the same layer in any order of the layers. */
  lemma SameFound(xs: seq<Layer>, ys: seq<Layer>, id: Id)
    requires UniqueIds(xs) && UniqueIds(ys) && SameLayers(xs, ys)
    ensures IndexOf(xs, id) == -1 <==> IndexOf(ys, id) == -1
    ensures IndexOf(xs, id) >= 0 ==> xs[IndexOf(xs, id)] == ys[IndexOf(ys, id)]
  {
    var i, j := IndexOf(xs, id), IndexOf(ys, id);
    if i >= 0 {
      assert xs[i] in ys;
      var k :| 0 <= k < |ys| && ys[k] == xs[i];
    }
    if j >= 0 {
      assert ys[j] in xs;
      var k :| 0 <= k < |xs| && xs[k] == ys[j];
    }
  }

  // ---- lists of fitting commands ----

  // the k-th command fits the sheet the ones before it leave
  predicate FitsNext(s: Sheet, cs: seq<Command>, k: nat)
    requires Known(s) && HoldsAll(s.data, cs) && k < |cs|
  {
    var before := ApplyAll(s, cs[..k]);
    HoldsSameKeys(s.data, before.data, cs[k]);
    FitsAt(before, cs[k])
  }

  predicate FitsAll(s: Sheet, cs: seq<Command>)
    requires Known(s) && HoldsAll(s.data, cs)
  {
    forall k :: 0 <= k < |cs| ==> FitsNext(s, cs, k)
  }

  lemma FitsAppend(s: Sheet, cs: seq<Command>, c: Command)
    requires Known(s) && HoldsAll(s.data, cs) && FitsAll(s, cs) && Holds(s.data, c)
    requires Holds(ApplyAll(s, cs).data, c) && FitsAt(ApplyAll(s, cs), c)
    ensures HoldsAll(s.data, cs + [c]) && FitsAll(s, cs + [c])
  {
    assert (cs + [c])[..|cs|] == cs;
    forall k | 0 <= k < |cs| ensures (cs + [c])[..k] == cs[..k] && FitsNext(s, cs, k) == true {
      assert FitsNext(s, cs, k);
    }
  }

  lemma NextFits(s: Sheet, cs: seq<Command>, k: nat)
    requires Known(s) && HoldsAll(s.data, cs) && FitsAll(s, cs) && k < |cs|
    ensures Holds(ApplyFirst(s, cs, k, Composite(cs)).data, cs[k])
    ensures FitsAt(ApplyFirst(s, cs, k, Composite(cs)), cs[k])
  {
    HoldsSameKeys(s.data, ApplyAll(s, cs[..k]).data, cs[k]);
    FirstIsAll(s, cs, k);
    assert FitsNext(s, cs, k);
  }

  lemma {:induction false} FirstFits(s: Sheet, cs: seq<Command>, k: nat)
    requires Known(s) && HoldsAll(s.data, cs) && FitsAll(s, cs) && k <= |cs|
    ensures FirstFit(s, cs, k, Composite(cs))
  {
    if k > 0 {
      FirstFits(s, cs, k - 1);
      NextFits(s, cs, k - 1);
    }
  }

  /** A composite of commands that each fit where they run fits as one command. */
  lemma CompositeFits(s: Sheet, cs: seq<Command>)
    requires Known(s) && HoldsAll(s.data, cs) && FitsAll(s, cs)
    ensures FitsAt(s, Composite(cs))
  {
    FirstFits(s, cs, |cs|);
  }

  lemma ListExact(s: Sheet, cs: seq<Command>)
    requires Known(s) && HoldsAll(s.data, cs) && FitsAll(s, cs) && UniqueIds(s.layers)
    ensures HoldsAll(ApplyAll(s, cs).data, cs)
    ensures InvertAll(ApplyAll(s, cs), cs) == s
  {
    CompositeFits(s, cs);
    FittingIsExact(s, Composite(cs));
    HoldsAllSameKeys(s.data, ApplyAll(s, cs).data, cs);
    CompositeIsAll(s, cs);
    CompositeIsAll(ApplyAll(s, cs), cs);
  }

  /** Two exact lists in a row, as one composite. */
  lemma ExactConcat(s: Sheet, cs: seq<Command>, ds: seq<Command>)
    requires Known(s) && HoldsAll(s.data, cs) && HoldsAll(s.data, ds)
    requires HoldsAll(ApplyAll(s, cs).data, cs) && InvertAll(ApplyAll(s, cs), cs) == s
    requires var mid := ApplyAll(s, cs);
             HoldsAll(mid.data, ds) && HoldsAll(ApplyAll(mid, ds).data, ds) && InvertAll(ApplyAll(mid, ds), ds) == mid
    ensures Holds(s.data, Composite(cs + ds)) && Exact(s, Composite(cs + ds))
  {
    ApplyConcat(s, cs, ds);
    var after := ApplyAll(s, cs + ds);
    HoldsAllSameKeys(s.data, after.data, cs);
    InvertConcat(after, cs, ds);
    CompositeIsAll(s, cs + ds);
    CompositeIsAll(after, cs + ds);
  }
}
