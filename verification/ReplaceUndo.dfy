/** One undo of an accepted 'replace' proposal (packages/editor/src/editor.ts:362-374): every layer
    comes back with its contents, and the layers come back in order exactly when a condition on the
    batch holds. */
module ReplaceUndo {
  import opened Wrappers
  import opened Drawing
  import opened Editing
  import opened Exactness
  import opened Reinsertion
  import opened Seqs
  import opened CommandLists
  import opened AcceptOps

  // the layers 'replace' removes
  function Gone(layers: seq<Layer>, drawnInto: seq<Id>): set<Layer> {
    set l | l in layers && l.id !in drawnInto
  }

  function Lowered(layers: seq<Layer>, drawnInto: seq<Id>): seq<nat> {
    IndicesOf(layers, Gone(layers, drawnInto))
  }

  // ---- the removals, one by one ----

  lemma {:induction false} RemovalsAre(layers: seq<Layer>, drawnInto: seq<Id>, n: nat)
    requires UniqueIds(layers) && n <= |layers|
    ensures var rs := IndicesOf(layers[..n], Gone(layers, drawnInto));
            |Removals(layers, drawnInto, n)| == |rs|
            && forall i :: 0 <= i < |rs| ==>
                 Removals(layers, drawnInto, n)[i] == RemoveLayer(layers[rs[i]].id, rs[i], Some(layers[rs[i]]))
  {
    if n > 0 {
      RemovalsAre(layers, drawnInto, n - 1);
      IndicesOfPrefix(layers, n - 1, Gone(layers, drawnInto));
      UniqueAt(layers, n - 1);
    }
  }

  lemma RemovalAt(layers: seq<Layer>, drawnInto: seq<Id>, i: nat)
    requires UniqueIds(layers) && i < |Lowered(layers, drawnInto)|
    ensures |Removals(layers, drawnInto, |layers|)| == |Lowered(layers, drawnInto)|
    ensures var r := Lowered(layers, drawnInto)[i];
            Removals(layers, drawnInto, |layers|)[i] == RemoveLayer(layers[r].id, r, Some(layers[r]))
  {
    RemovalsAre(layers, drawnInto, |layers|);
    assert layers[..|layers|] == layers;
  }

  lemma RemovalsCount(layers: seq<Layer>, drawnInto: seq<Id>)
    requires UniqueIds(layers)
    ensures |Removals(layers, drawnInto, |layers|)| == |Lowered(layers, drawnInto)|
  {
    RemovalsAre(layers, drawnInto, |layers|);
    assert layers[..|layers|] == layers;
  }

  lemma {:induction false} RemovalsHold(s: Sheet, drawnInto: seq<Id>, n: nat)
    requires Known(s) && n <= |s.layers|
    ensures HoldsAll(s.data, Removals(s.layers, drawnInto, n))
  {
    if n > 0 { RemovalsHold(s, drawnInto, n - 1); }
  }

  // indices into a list, in order
  predicate Indices(layers: seq<Layer>, rs: seq<nat>) {
    (forall i :: 0 <= i < |rs| ==> rs[i] < |layers|) && forall i, j :: 0 <= i < j < |rs| ==> rs[i] < rs[j]
  }

  function FirstGone(layers: seq<Layer>, rs: seq<nat>, k: nat): set<Layer>
    requires k <= |rs| && Indices(layers, rs)
  {
    set i | 0 <= i < k :: layers[rs[i]]
  }

  // one removal: the layer goes, wherever it is by now
  lemma RemovedOne(s: Sheet, all: seq<Layer>, gone: set<Layer>, l: Layer, c: Command)
    requires Known(s) && UniqueIds(all) && s.layers == Without(all, gone) && l in all && l !in gone
    requires c.RemoveLayer? && c.layerId == l.id && Holds(s.data, c)
    ensures Apply(s, c) == s.(layers := Without(all, gone + {l}))
  {
    WithoutUnique(all, gone);
    WithoutMember(all, gone, l);
    var k :| 0 <= k < |s.layers| && s.layers[k] == l;
    UniqueAt(s.layers, k);
    RemoveIsWithout(s.layers, k);
    WithoutTwice(all, gone, {l});
  }

  // the k-th removal, after the ones before it
  lemma RemovalStep(before: Sheet, layers: seq<Layer>, more: seq<Layer>, rs: seq<nat>, k: nat, c: Command)
    requires Known(before) && UniqueIds(layers + more) && Indices(layers, rs) && k < |rs|
    requires c.RemoveLayer? && c.layerId == layers[rs[k]].id && Holds(before.data, c)
    requires before.layers == Without(layers + more, FirstGone(layers, rs, k))
    ensures Apply(before, c) == before.(layers := Without(layers + more, FirstGone(layers, rs, k + 1)))
  {
    UniquePrefix(layers, more);
    NotYetGone(layers, rs, k);
    assert (layers + more)[rs[k]] == layers[rs[k]];
    assert FirstGone(layers, rs, k + 1) == FirstGone(layers, rs, k) + {layers[rs[k]]};
    RemovedOne(before, layers + more, FirstGone(layers, rs, k), layers[rs[k]], c);
  }

  lemma {:induction false} RemovalsApply(s: Sheet, layers: seq<Layer>, more: seq<Layer>, drawnInto: seq<Id>, k: nat)
    requires Known(s) && s.layers == layers + more && UniqueIds(layers + more) && UniqueIds(layers)
    requires HoldsAll(s.data, Removals(layers, drawnInto, |layers|)) && k <= |Lowered(layers, drawnInto)|
    requires |Removals(layers, drawnInto, |layers|)| == |Lowered(layers, drawnInto)|
    ensures ApplyAll(s, Removals(layers, drawnInto, |layers|)[..k])
         == s.(layers := Without(layers + more, FirstGone(layers, Lowered(layers, drawnInto), k)))
  {
    var cs, rs := Removals(layers, drawnInto, |layers|), Lowered(layers, drawnInto);
    if k == 0 {
      WithoutNone(layers + more, {});
      assert FirstGone(layers, rs, 0) == {};
    } else {
      RemovalsApply(s, layers, more, drawnInto, k - 1);
      assert cs[..k][..k - 1] == cs[..k - 1] && cs[..k][k - 1] == cs[k - 1];
      var before := ApplyAll(s, cs[..k - 1]);
      HoldsSameKeys(s.data, before.data, cs[k - 1]);
      RemovalAt(layers, drawnInto, k - 1);
      RemovalStep(before, layers, more, rs, k - 1, cs[k - 1]);
    }
  }

  lemma NotYetGone(layers: seq<Layer>, rs: seq<nat>, k: nat)
    requires UniqueIds(layers) && Indices(layers, rs) && k < |rs|
    ensures layers[rs[k]] !in FirstGone(layers, rs, k)
  {
  }

  lemma AllGone(layers: seq<Layer>, drawnInto: seq<Id>)
    ensures var rs := Lowered(layers, drawnInto);
            FirstGone(layers, rs, |rs|) == Gone(layers, drawnInto)
  {
    var rs, gone := Lowered(layers, drawnInto), Gone(layers, drawnInto);
    forall l | l in gone ensures l in FirstGone(layers, rs, |rs|) {
      var k :| 0 <= k < |layers| && layers[k] == l;
      var i := IndexFound(layers, gone, k);
    }
  }

  // ---- putting them back ----

  lemma {:induction false} RemovalsInvert(s: Sheet, layers: seq<Layer>, drawnInto: seq<Id>, z: seq<Layer>, k: nat)
    requires Known(s) && UniqueIds(layers) && HoldsAll(s.data, Removals(layers, drawnInto, |layers|))
    requires |Removals(layers, drawnInto, |layers|)| == |Lowered(layers, drawnInto)|
    requires k <= |Lowered(layers, drawnInto)| && s.layers == Reinsert(z, layers, Lowered(layers, drawnInto), k)
    ensures InvertAll(s, Removals(layers, drawnInto, |layers|)[..k])
         == s.(layers := Reinsert(z, layers, Lowered(layers, drawnInto), 0))
    decreases k
  {
    if k > 0 {
      var cs := Removals(layers, drawnInto, |layers|);
      RemovalAt(layers, drawnInto, k - 1);
      assert cs[..k][..k - 1] == cs[..k - 1] && cs[..k][k - 1] == cs[k - 1];
      var after := Invert(s, cs[k - 1]);
      HoldsAllSameKeys(s.data, after.data, cs);
      RemovalsInvert(after, layers, drawnInto, z, k - 1);
    }
  }

  // ---- taking the adds back from a reordered document ----

  // the same sheet with its layers in another order
  predicate Reordered(v: Sheet, s: Sheet) {
    v.data == s.data && v.background == s.background && UniqueIds(v.layers) && SameLayers(v.layers, s.layers)
  }

  lemma StrokeBack(before: Sheet, v: Sheet, c: Command)
    requires Known(before) && Known(v) && c.AddStroke? && FitsAt(before, c) && UniqueIds(before.layers)
    requires Reordered(v, Apply(before, c))
    ensures Invert(v, c) == before.(layers := v.layers)
  {
    var after := Apply(before, c);
    StrokeExact(before, c);
    SameFound(v.layers, after.layers, c.layerId);
    assert Invert(after, c) == before;
    assert Invert(v, c).data == Invert(after, c).data;
  }

  lemma LayerBack(before: Sheet, v: Sheet, c: Command)
    requires Known(before) && Known(v) && c.AddLayer? && Holds(before.data, c) && Holds(v.data, c)
    requires FitsAt(before, c) && UniqueIds(before.layers) && Reordered(v, Apply(before, c))
    ensures Invert(v, c) == before.(layers := Without(v.layers, {c.layer}))
    ensures Reordered(Invert(v, c), before)
  {
    var at := Clamp(c.index, |before.layers|);
    InsertedMembers(before.layers, at, c.layer);
    assert c.layer in Apply(before, c).layers && c.layer in v.layers;
    var k :| 0 <= k < |v.layers| && v.layers[k] == c.layer;
    UniqueAt(v.layers, k);
    RemoveIsWithout(v.layers, k);
    WithoutUnique(v.layers, {c.layer});
    forall l ensures l in Without(v.layers, {c.layer}) <==> l in before.layers {
      WithoutMember(v.layers, {c.layer}, l);
    }
  }

  lemma InsertedMembers(layers: seq<Layer>, at: nat, l: Layer)
    requires at <= |layers|
    ensures forall k :: k in InsertAt(layers, at, l) <==> k == l || k in layers
  {
    assert layers == layers[..at] + layers[at..];
  }

  predicate Adding(cs: seq<Command>) {
    forall k :: 0 <= k < |cs| ==> cs[k].AddLayer? || cs[k].AddStroke?
  }

  // the layers the commands add
  function LayersAdded(cs: seq<Command>): set<Layer> {
    if cs == [] then {}
    else
      var c := cs[|cs| - 1];
      (if c.AddLayer? then {c.layer} else {}) + LayersAdded(cs[..|cs| - 1])
  }

  // one of them taken back
  lemma OneBack(before: Sheet, v: Sheet, c: Command)
    requires Known(before) && Known(v) && Holds(before.data, c) && Holds(v.data, c) && (c.AddLayer? || c.AddStroke?)
    requires FitsAt(before, c) && UniqueIds(before.layers) && Reordered(v, Apply(before, c))
    ensures Reordered(Invert(v, c), before)
    ensures Invert(v, c).layers == if c.AddLayer? then Without(v.layers, {c.layer}) else v.layers
  {
    if c.AddLayer? { LayerBack(before, v, c); } else { StrokeBack(before, v, c); }
  }

  lemma AddedLast(layers: seq<Layer>, cs: seq<Command>)
    requires cs != []
    ensures var c, some := cs[|cs| - 1], LayersAdded(cs[..|cs| - 1]);
            var rest := if c.AddLayer? then Without(layers, {c.layer}) else layers;
            Without(layers, LayersAdded(cs)) == Without(rest, some)
  {
    var c, some := cs[|cs| - 1], LayersAdded(cs[..|cs| - 1]);
    if c.AddLayer? { WithoutTwice(layers, {c.layer}, some); }
    assert LayersAdded(cs) == if c.AddLayer? then {c.layer} + some else some;
  }

  /** Additions that each fit are taken back from the document in any order of its layers. */
  lemma {:induction false} AllTakenBack(s: Sheet, cs: seq<Command>, v: Sheet)
    requires Known(s) && HoldsAll(s.data, cs) && Adding(cs) && FitsAll(s, cs) && UniqueIds(s.layers)
    requires Known(v) && HoldsAll(v.data, cs) && Reordered(v, ApplyAll(s, cs))
    ensures InvertAll(v, cs) == s.(layers := Without(v.layers, LayersAdded(cs)))
    decreases |cs|
  {
    if cs == [] {
      WithoutNone(v.layers, {});
      assert v.(layers := v.layers) == s.(layers := v.layers);
    } else {
      var some, c := cs[..|cs| - 1], cs[|cs| - 1];
      FitsInit(s, cs);
      FitsUnique(s, some);
      OneBack(ApplyAll(s, some), v, c);
      HoldsAllSameKeys(v.data, Invert(v, c).data, some);
      AllTakenBack(s, some, Invert(v, c));
      AddedLast(v.layers, cs);
    }
  }

  // all but the last fit too, and the last where they leave off
  lemma FitsInit(s: Sheet, cs: seq<Command>)
    requires Known(s) && HoldsAll(s.data, cs) && FitsAll(s, cs) && cs != []
    ensures FitsAll(s, cs[..|cs| - 1])
    ensures Holds(ApplyAll(s, cs[..|cs| - 1]).data, cs[|cs| - 1])
    ensures FitsAt(ApplyAll(s, cs[..|cs| - 1]), cs[|cs| - 1])
  {
    var last := |cs| - 1;
    assert FitsNext(s, cs, last);
    HoldsSameKeys(s.data, ApplyAll(s, cs[..last]).data, cs[last]);
    forall k | 0 <= k < last ensures cs[..last][..k] == cs[..k] && FitsNext(s, cs, k) == true {
      assert FitsNext(s, cs, k);
    }
  }

  lemma FitsUnique(s: Sheet, cs: seq<Command>)
    requires Known(s) && HoldsAll(s.data, cs) && FitsAll(s, cs) && UniqueIds(s.layers)
    ensures UniqueIds(ApplyAll(s, cs).layers)
  {
    CompositeFits(s, cs);
    FittingIsExact(s, Composite(cs));
    CompositeIsAll(s, cs);
  }

  lemma {:induction false} AddsLayers(ops: seq<Op>, made: seq<Layer>, top: nat)
    requires LayerOps(ops) <= |made|
    ensures LayersAdded(PlanOps(ops, made, top).commands) == Elements(made[..LayerOps(ops)])
  {
    if ops != [] {
      var last := |ops| - 1;
      AddsLayers(ops[..last], made, top);
      assert PlanOps(ops, made, top).commands[..last] == PlanOps(ops[..last], made, top).commands;
      if ops[last].AddLayerOp? {
        var n := LayerOps(ops[..last]);
        assert made[..n + 1] == made[..n] + [made[n]];
      }
    }
  }

  lemma AddsBack(s: Sheet, ops: seq<Op>, made: seq<Layer>, v: Sheet)
    requires Batch(s, ops, made) && FreshStrokes(s, ops) && Known(v) && Reordered(v, Planned(s, ops, made))
    ensures HoldsAll(v.data, PlanOps(ops, made, |s.layers|).commands)
    ensures InvertAll(v, PlanOps(ops, made, |s.layers|).commands)
         == s.(layers := Without(v.layers, Elements(made[..LayerOps(ops)])))
  {
    var cs := PlanOps(ops, made, |s.layers|).commands;
    PlanFits(s, ops, made);
    PlanHolds(s, ops, made, |s.layers|);
    UniquePrefix(s.layers, made);
    AddsLayers(ops, made, |s.layers|);
    HoldsAllSameKeys(s.data, v.data, cs);
    AllTakenBack(s, cs, v);
  }

  lemma PlannedUnique(s: Sheet, ops: seq<Op>, made: seq<Layer>)
    requires Batch(s, ops, made)
    ensures UniqueIds(Planned(s, ops, made).layers)
  {
    PlannedLayers(s, ops, made);
    var all, some := s.layers + made, Planned(s, ops, made).layers;
    assert forall i :: 0 <= i < |some| ==> some[i] == all[i];
  }

  // ---- the whole undo ----

  function Replaced(s: Sheet, ops: seq<Op>, made: seq<Layer>): set<Layer>
    requires LayerOps(ops) <= |made|
  {
    Gone(s.layers, PlanOps(ops, made, |s.layers|).drawnInto)
  }

  lemma ReplaceHolds(s: Sheet, ops: seq<Op>, made: seq<Layer>)
    requires Batch(s, ops, made)
    ensures HoldsAll(s.data, PlanOps(ops, made, |s.layers|).commands)
    ensures HoldsAll(s.data, Removals(s.layers, PlanOps(ops, made, |s.layers|).drawnInto, |s.layers|))
    ensures HoldsAll(s.data, AcceptedCommands(s.layers, ops, made, ReplaceMode))
  {
    PlanHolds(s, ops, made, |s.layers|);
    RemovalsHold(s, PlanOps(ops, made, |s.layers|).drawnInto, |s.layers|);
  }

  // what the removals leave of the old layers and of those on top of them
  lemma RemovalsLeave(after: Sheet, layers: seq<Layer>, more: seq<Layer>, drawnInto: seq<Id>)
    requires Known(after) && after.layers == layers + more && UniqueIds(layers + more) && UniqueIds(layers)
    requires HoldsAll(after.data, Removals(layers, drawnInto, |layers|))
    requires Without(more, Gone(layers, drawnInto)) == more
    ensures ApplyAll(after, Removals(layers, drawnInto, |layers|))
         == after.(layers := Without(layers, Gone(layers, drawnInto)) + more)
  {
    var cs := Removals(layers, drawnInto, |layers|);
    RemovalsCount(layers, drawnInto);
    RemovalsApply(after, layers, more, drawnInto, |cs|);
    assert cs[..|cs|] == cs;
    AllGone(layers, drawnInto);
    WithoutConcat(layers, more, Gone(layers, drawnInto));
  }

  /** What 'replace' leaves: the layers drawn into and the new ones. */
  lemma ReplaceApplied(s: Sheet, ops: seq<Op>, made: seq<Layer>)
    requires Batch(s, ops, made)
    ensures HoldsAll(s.data, AcceptedCommands(s.layers, ops, made, ReplaceMode))
    ensures ApplyAll(s, AcceptedCommands(s.layers, ops, made, ReplaceMode))
         == Planned(s, ops, made).(layers := Without(s.layers, Replaced(s, ops, made)) + made[..LayerOps(ops)])
  {
    var p := PlanOps(ops, made, |s.layers|);
    ReplaceHolds(s, ops, made);
    ApplyConcat(s, p.commands, Removals(s.layers, p.drawnInto, |s.layers|));
    PlannedLayers(s, ops, made);
    PlannedUnique(s, ops, made);
    UniquePrefix(s.layers, made);
    NewStay(s.layers, made, LayerOps(ops), Replaced(s, ops, made));
    RemovalsLeave(Planned(s, ops, made), s.layers, made[..LayerOps(ops)], p.drawnInto);
  }

  lemma NewStay(layers: seq<Layer>, made: seq<Layer>, n: nat, gone: set<Layer>)
    requires UniqueIds(layers + made) && n <= |made| && forall l :: l in gone ==> l in layers
    ensures Without(made[..n], gone) == made[..n]
    ensures Apart(layers, made[..n])
  {
    var all := layers + made;
    forall i | 0 <= i < n ensures made[i] !in layers {
      assert all[|layers| + i] == made[i];
      assert forall j :: 0 <= j < |layers| ==> all[j] == layers[j];
    }
    assert forall j :: 0 <= j < |layers| ==> all[j] == layers[j];
    assert forall j :: 0 <= j < n ==> all[|layers| + j] == made[j];
    WithoutNone(made[..n], gone);
  }

  // the removals taken back, on the sheet they leave
  lemma RemovalsBack(s: Sheet, ops: seq<Op>, made: seq<Layer>, u: Sheet)
    requires Batch(s, ops, made) && Known(u) && u.data.Keys == s.data.Keys
    requires u.layers == Without(s.layers, Replaced(s, ops, made)) + made[..LayerOps(ops)]
    ensures var cs := Removals(s.layers, PlanOps(ops, made, |s.layers|).drawnInto, |s.layers|);
            HoldsAll(u.data, cs)
            && InvertAll(u, cs)
               == u.(layers := Reinsert(u.layers, s.layers, IndicesOf(s.layers, Replaced(s, ops, made)), 0))
  {
    var drawnInto := PlanOps(ops, made, |s.layers|).drawnInto;
    var cs := Removals(s.layers, drawnInto, |s.layers|);
    ReplaceHolds(s, ops, made);
    HoldsAllSameKeys(s.data, u.data, cs);
    UniquePrefix(s.layers, made);
    RemovalsCount(s.layers, drawnInto);
    RemovalsInvert(u, s.layers, drawnInto, u.layers, |cs|);
    assert cs[..|cs|] == cs;
  }

  /** One undo puts everything back but the order: the old layers come back as Reinsertion says. */
  lemma ReplaceUndone(s: Sheet, ops: seq<Op>, made: seq<Layer>)
    requires Batch(s, ops, made) && FreshStrokes(s, ops)
    ensures var c := Composite(AcceptedCommands(s.layers, ops, made, ReplaceMode));
            Holds(s.data, c) && Holds(Apply(s, c).data, c)
            && Invert(Apply(s, c), c) == s.(layers := Undone(s.layers, Replaced(s, ops, made), made[..LayerOps(ops)]))
  {
    var p, all := PlanOps(ops, made, |s.layers|), AcceptedCommands(s.layers, ops, made, ReplaceMode);
    var cs := Removals(s.layers, p.drawnInto, |s.layers|);
    ReplaceHolds(s, ops, made);
    ReplaceApplied(s, ops, made);
    var u := ApplyAll(s, all);
    HoldsAllSameKeys(s.data, u.data, all);
    HoldsAllSameKeys(s.data, u.data, p.commands);
    CompositeIsAll(s, all);
    CompositeIsAll(u, all);
    RemovalsBack(s, ops, made, u);
    InvertConcat(u, p.commands, cs);
    ReinsertedSame(s, ops, made);
    AddsBack(s, ops, made, InvertAll(u, cs));
  }

  // the reinserted list holds the same layers as the document after the adds
  lemma ReinsertedSame(s: Sheet, ops: seq<Op>, made: seq<Layer>)
    requires Batch(s, ops, made)
    ensures var z := Without(s.layers, Replaced(s, ops, made)) + made[..LayerOps(ops)];
            var v := Reinsert(z, s.layers, IndicesOf(s.layers, Replaced(s, ops, made)), 0);
            UniqueIds(v) && SameLayers(v, Planned(s, ops, made).layers)
  {
    var new', gone := made[..LayerOps(ops)], Replaced(s, ops, made);
    var v := Reinsert(Without(s.layers, gone) + new', s.layers, IndicesOf(s.layers, gone), 0);
    PlannedLayers(s, ops, made);
    PlannedUnique(s, ops, made);
    forall l ensures multiset(v)[l] == multiset(s.layers + new')[l] {
      ReinsertAllCount(s.layers, gone, new', l);
    }
    SameBag(v, s.layers + new');
  }

  lemma SameBag(xs: seq<Layer>, ys: seq<Layer>)
    requires UniqueIds(ys) && forall l :: multiset(xs)[l] == multiset(ys)[l]
    ensures UniqueIds(xs) && SameLayers(xs, ys)
  {
    forall l ensures l in xs <==> l in ys {
      assert l in multiset(xs) <==> l in multiset(ys);
    }
    forall i, j | 0 <= i < j < |xs| ensures xs[i].id != xs[j].id {
      assert xs[i] in ys && xs[j] in ys;
      var a :| 0 <= a < |ys| && ys[a] == xs[i];
      var b :| 0 <= b < |ys| && ys[b] == xs[j];
      if xs[i] == xs[j] {
        TwoOf(xs, i, j);
        AtMostOne(ys, a);
      }
    }
  }

  lemma TwoOf<T>(xs: seq<T>, i: nat, j: nat)
    requires i < j < |xs| && xs[i] == xs[j]
    ensures multiset(xs)[xs[i]] >= 2
  {
    assert xs == xs[..j] + xs[j..];
    assert multiset(xs) == multiset(xs[..j]) + multiset(xs[j..]);
    assert xs[..j][i] == xs[i] && xs[j..][0] == xs[i];
  }

  lemma {:induction false} AtMostOne(ys: seq<Layer>, a: nat)
    requires UniqueIds(ys) && a < |ys|
    ensures multiset(ys)[ys[a]] <= 1
  {
    assert ys == ys[..a] + [ys[a]] + ys[a + 1..];
    assert multiset(ys) == multiset(ys[..a]) + multiset{ys[a]} + multiset(ys[a + 1..]);
    assert ys[a] !in ys[..a] && ys[a] !in ys[a + 1..];
  }

  /** One undo of an accepted 'replace' is exact if and only if at most two more layers were removed
      than added, and no layer the batch draws into lay above the second lowest removed one. */
  lemma ReplaceUndoIff(s: Sheet, ops: seq<Op>, made: seq<Layer>)
    requires Batch(s, ops, made) && FreshStrokes(s, ops)
    ensures var c := Composite(AcceptedCommands(s.layers, ops, made, ReplaceMode));
            Holds(s.data, c)
            && (Exact(s, c) <==> Returns(s.layers, Replaced(s, ops, made), LayerOps(ops)))
  {
    ReplaceUndone(s, ops, made);
    UniquePrefix(s.layers, made);
    UniqueDistinct(s.layers);
    NewStay(s.layers, made, LayerOps(ops), Replaced(s, ops, made));
    UndoneIff(s.layers, Replaced(s, ops, made), made[..LayerOps(ops)]);
  }

  /** When no old layer is drawn into: exactly when old layers number at most two more than new. */
  lemma ReplaceAllUndoIff(s: Sheet, ops: seq<Op>, made: seq<Layer>)
    requires Batch(s, ops, made) && FreshStrokes(s, ops)
    requires forall l :: l in s.layers ==> l.id !in PlanOps(ops, made, |s.layers|).drawnInto
    ensures var c := Composite(AcceptedCommands(s.layers, ops, made, ReplaceMode));
            Holds(s.data, c) && (Exact(s, c) <==> |s.layers| <= LayerOps(ops) + 2)
  {
    ReplaceUndoIff(s, ops, made);
    assert Replaced(s, ops, made) == Elements(s.layers);
    ReturnsAllIff(s.layers, LayerOps(ops));
  }

  /** Whatever the order, one undo restores every removed layer, each once, with its contents. */
  lemma ReplaceUndoRestores(s: Sheet, ops: seq<Op>, made: seq<Layer>, l: Layer)
    requires Batch(s, ops, made) && FreshStrokes(s, ops)
    ensures var c := Composite(AcceptedCommands(s.layers, ops, made, ReplaceMode));
            Holds(s.data, c) && Holds(Apply(s, c).data, c)
            && var back := Invert(Apply(s, c), c);
               multiset(back.layers)[l] == multiset(s.layers)[l]
               && back.data == s.data && back.background == s.background
  {
    ReplaceUndone(s, ops, made);
    UniquePrefix(s.layers, made);
    UniqueDistinct(s.layers);
    NewStay(s.layers, made, LayerOps(ops), Replaced(s, ops, made));
    NothingLost(s.layers, Replaced(s, ops, made), made[..LayerOps(ops)], l);
  }

  // ---- removing from the top down ----

  function Backwards<T>(xs: seq<T>): (r: seq<T>)
    ensures |r| == |xs| && forall i :: 0 <= i < |r| ==> r[i] == xs[|xs| - 1 - i]
  {
    seq(|xs|, i requires 0 <= i < |xs| => xs[|xs| - 1 - i])
  }

  // how much of the original list k removals from the top have left alone
  function Untouched(layers: seq<Layer>, rs: seq<nat>, k: nat): nat
    requires k <= |rs|
  {
    if k == 0 then |layers| else rs[|rs| - k]
  }

  ghost predicate TopDown(s: Sheet, layers: seq<Layer>, rs: seq<nat>, k: nat)
    requires k <= |rs|
  {
    Known(s) && UniqueIds(s.layers) && Untouched(layers, rs, k) <= |layers| && Untouched(layers, rs, k) <= |s.layers|
    && forall i :: 0 <= i < Untouched(layers, rs, k) ==> s.layers[i] == layers[i]
  }

  lemma TopDownStep(s: Sheet, layers: seq<Layer>, drawnInto: seq<Id>, k: nat)
    requires UniqueIds(layers) && k < |Lowered(layers, drawnInto)| && TopDown(s, layers, Lowered(layers, drawnInto), k)
    requires |Removals(layers, drawnInto, |layers|)| == |Lowered(layers, drawnInto)|
    ensures var c := Backwards(Removals(layers, drawnInto, |layers|))[k];
            Holds(s.data, c) && FitsAt(s, c) && TopDown(Apply(s, c), layers, Lowered(layers, drawnInto), k + 1)
  {
    var rs := Lowered(layers, drawnInto);
    var r := rs[|rs| - 1 - k];
    RemovalAt(layers, drawnInto, |rs| - 1 - k);
    assert r < Untouched(layers, rs, k);
    assert s.layers[r] == layers[r];
    UniqueAt(s.layers, r);
    RemovedIndex(s.layers, r);
  }

  lemma {:induction false} TopDownRun(s: Sheet, layers: seq<Layer>, drawnInto: seq<Id>, k: nat)
    requires UniqueIds(layers) && k <= |Lowered(layers, drawnInto)| && TopDown(s, layers, Lowered(layers, drawnInto), 0)
    requires HoldsAll(s.data, Backwards(Removals(layers, drawnInto, |layers|)))
    requires |Removals(layers, drawnInto, |layers|)| == |Lowered(layers, drawnInto)|
    ensures var cs := Backwards(Removals(layers, drawnInto, |layers|));
            TopDown(ApplyAll(s, cs[..k]), layers, Lowered(layers, drawnInto), k)
  {
    if k > 0 {
      var cs := Backwards(Removals(layers, drawnInto, |layers|));
      TakeNext(cs, k - 1);
      TopDownRun(s, layers, drawnInto, k - 1);
      TopDownStep(ApplyAll(s, cs[..k - 1]), layers, drawnInto, k - 1);
      ApplyLast(s, cs[..k - 1], cs[k - 1]);
    }
  }

  lemma TopDownFits(s: Sheet, layers: seq<Layer>, drawnInto: seq<Id>, k: nat)
    requires UniqueIds(layers) && k < |Lowered(layers, drawnInto)| && TopDown(s, layers, Lowered(layers, drawnInto), 0)
    requires HoldsAll(s.data, Backwards(Removals(layers, drawnInto, |layers|)))
    requires |Removals(layers, drawnInto, |layers|)| == |Lowered(layers, drawnInto)|
    ensures FitsNext(s, Backwards(Removals(layers, drawnInto, |layers|)), k)
  {
    TopDownRun(s, layers, drawnInto, k);
    TopDownStep(ApplyAll(s, Backwards(Removals(layers, drawnInto, |layers|))[..k]), layers, drawnInto, k);
  }

  /** Had the same removals, built on the same document, run from the top layer down, every
      'replace' would be undone exactly. */
  lemma DescendingExact(s: Sheet, ops: seq<Op>, made: seq<Layer>)
    requires Batch(s, ops, made) && FreshStrokes(s, ops)
    ensures var p := PlanOps(ops, made, |s.layers|);
            var c := Composite(p.commands + Backwards(Removals(s.layers, p.drawnInto, |s.layers|)));
            Holds(s.data, c) && Exact(s, c)
  {
    var p := PlanOps(ops, made, |s.layers|);
    var cs := Backwards(Removals(s.layers, p.drawnInto, |s.layers|));
    var after := Planned(s, ops, made);
    ReplaceHolds(s, ops, made);
    UniquePrefix(s.layers, made);
    RemovalsCount(s.layers, p.drawnInto);
    PlanFits(s, ops, made);
    PlannedLayers(s, ops, made);
    PlannedUnique(s, ops, made);
    HoldsAllSameKeys(s.data, after.data, cs);
    assert TopDown(after, s.layers, Lowered(s.layers, p.drawnInto), 0);
    forall k | 0 <= k < |cs| ensures FitsNext(after, cs, k) {
      TopDownFits(after, s.layers, p.drawnInto, k);
    }
    ListExact(s, p.commands);
    ListExact(after, cs);
    ExactConcat(s, p.commands, cs);
  }
}
