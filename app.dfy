/**
 * The per-frame logic of the application shell: X-window synchronisation
 * between graphs, sync and unsync edits, graph reordering by drag and drop,
 * ingestion of selected columns, and the screenshot crop. File dialogs,
 * threads and the widget code are not modelled; the values they produce
 * are parameters.
 */
module App {
  import opened Common
  import opened Series
  import opened PlotView
  import opened Graph
  import opened State
  import Units

  // ---------------------------------------------------------------------
  // X-window synchronisation
  // ---------------------------------------------------------------------

  /** A pending write of an x window into the graph with id `target`. */
  datatype Propagation = Propagation(target: nat, xMin: real, xMax: real)

  function ViewsOf(gs: seq<GraphState>): set<PlotViewState>
  {
    set g | g in gs :: g.view
  }

  /** One propagation per partner, all carrying the same window. */
  function Fanout(partners: seq<nat>, lo: real, hi: real): (r: seq<Propagation>)
    ensures |r| == |partners| && forall k :: 0 <= k < |r| ==> r[k] == Propagation(partners[k], lo, hi)
  {
    if partners == [] then [] else Fanout(partners[..|partners| - 1], lo, hi) + [Propagation(partners[|partners| - 1], lo, hi)]
  }

  /** The graph is synced and its x window moved since the last snapshot. */
  predicate Source(g: GraphState)
    reads g, g.view
  {
    g.syncPartnerIds != [] && g.view.XRangeChanged()
  }

  /** The first pass: in graph order, every changed synced graph sends its
      window to each of its partners. */
  function Collect(gs: seq<GraphState>): seq<Propagation>
    reads gs, ViewsOf(gs)
  {
    if gs == [] then []
    else
      var g := gs[|gs| - 1];
      assert g.view in ViewsOf(gs);
      assert ViewsOf(gs[..|gs| - 1]) <= ViewsOf(gs);
      Collect(gs[..|gs| - 1]) +
        (if Source(g) then Fanout(g.syncPartnerIds, g.view.xMin, g.view.xMax) else [])
  }

  /** The window the last propagation aimed at `id` carries, if any. */
  function LastFor(props: seq<Propagation>, id: nat): (r: Option<(real, real)>)
    ensures r.None? <==> forall k :: 0 <= k < |props| ==> props[k].target != id
    ensures r.Some? ==>
      exists k :: 0 <= k < |props| && props[k] == Propagation(id, r.value.0, r.value.1) &&
        (forall j :: k < j < |props| ==> props[j].target != id)
  {
    if props == [] then None
    else
      var p := props[|props| - 1];
      if p.target == id then Some((p.xMin, p.xMax)) else LastFor(props[..|props| - 1], id)
  }

  /** The collect pass as the loop the program runs. */
  method CollectPropagations(gs: seq<GraphState>) returns (props: seq<Propagation>)
    ensures props == Collect(gs)
  {
    props := [];
    for i := 0 to |gs|
      invariant props == Collect(gs[..i])
    {
      var g := gs[i];
      assert gs[..i + 1][..i] == gs[..i];
      if g.syncPartnerIds != [] && g.view.XRangeChanged() {
        var lo, hi := g.view.xMin, g.view.xMax;
        for k := 0 to |g.syncPartnerIds|
          invariant props == Collect(gs[..i]) + Fanout(g.syncPartnerIds[..k], lo, hi)
        {
          assert g.syncPartnerIds[..k + 1][..k] == g.syncPartnerIds[..k];
          props := props + [Propagation(g.syncPartnerIds[k], lo, hi)];
        }
        assert g.syncPartnerIds[..|g.syncPartnerIds|] == g.syncPartnerIds;
      } else {
        assert Collect(gs[..i + 1]) == Collect(gs[..i]) + [];
      }
    }
    assert gs[..|gs|] == gs;
  }

  /** The apply pass: each propagation writes its window into the graph
      with the target id, when there is one, so the last write wins. */
  method ApplyPropagations(app: AppState, props: seq<Propagation>)
    requires app.Valid()
    modifies ViewsOf(app.graphs)`xMin, ViewsOf(app.graphs)`xMax
    ensures forall k :: 0 <= k < |app.graphs| ==>
      var w := LastFor(props, app.graphs[k].id);
      var v := app.graphs[k].view;
      (w.Some? ==> v.xMin == w.value.0 && v.xMax == w.value.1) &&
      (w.None? ==> v.xMin == old(v.xMin) && v.xMax == old(v.xMax))
  {
    var gs := app.graphs;
    for i := 0 to |props|
      invariant forall k :: 0 <= k < |gs| ==>
        var w := LastFor(props[..i], gs[k].id);
        var v := gs[k].view;
        (w.Some? ==> v.xMin == w.value.0 && v.xMax == w.value.1) &&
        (w.None? ==> v.xMin == old(v.xMin) && v.xMax == old(v.xMax))
    {
      assert props[..i + 1][..i] == props[..i];
      Propagate(app, props[i]);
    }
    assert props[..|props|] == props;
  }

  /** One propagation: the target graph's view takes the window, every
      other view keeps its own. */
  method Propagate(app: AppState, p: Propagation)
    requires app.Valid()
    modifies ViewsOf(app.graphs)`xMin, ViewsOf(app.graphs)`xMax
    ensures forall k :: 0 <= k < |app.graphs| ==>
      var v := app.graphs[k].view;
      if app.graphs[k].id == p.target then v.xMin == p.xMin && v.xMax == p.xMax
      else v.xMin == old(v.xMin) && v.xMax == old(v.xMax)
  {
    var found := app.GraphById(p.target);
    if found.Some? {
      var t := found.value;
      assert t.view in ViewsOf(app.graphs);
      t.view.xMin := p.xMin;
      t.view.xMax := p.xMax;
    }
  }

  /** The snapshot pass over every graph. */
  method SnapshotAll(gs: seq<GraphState>)
    modifies ViewsOf(gs)`prevXMin, ViewsOf(gs)`prevXMax
    ensures forall k :: 0 <= k < |gs| ==> !gs[k].view.XRangeChanged()
  {
    for i := 0 to |gs|
      invariant forall k :: 0 <= k < i ==> !gs[k].view.XRangeChanged()
    {
      assert gs[i].view in ViewsOf(gs);
      gs[i].view.SnapshotXRange();
    }
  }

  /** The sync block of a frame: collect, apply, snapshot. Afterwards every
      graph's window is the last one propagated to it (or its own), and no
      graph reports a change, so the next frame propagates nothing without
      new input. */
  method SyncFrame(app: AppState)
    requires app.Valid()
    modifies ViewsOf(app.graphs)`xMin, ViewsOf(app.graphs)`xMax
    modifies ViewsOf(app.graphs)`prevXMin, ViewsOf(app.graphs)`prevXMax
    ensures forall k :: 0 <= k < |app.graphs| ==>
      var w := LastFor(old(Collect(app.graphs)), app.graphs[k].id);
      var v := app.graphs[k].view;
      (w.Some? ==> v.xMin == w.value.0 && v.xMax == w.value.1) &&
      (w.None? ==> v.xMin == old(v.xMin) && v.xMax == old(v.xMax))
    ensures forall k :: 0 <= k < |app.graphs| ==> !app.graphs[k].view.XRangeChanged()
  {
    var props := CollectPropagations(app.graphs);
    ApplyPropagations(app, props);
    SnapshotAll(app.graphs);
  }

  /** Only graph `a` is a changed synced graph: the collected propagations
      are exactly its fan-out, so each of its partners receives its window. */
  lemma {:induction false} SingleSourceFanout(gs: seq<GraphState>, a: nat)
    requires a < |gs| && Source(gs[a])
    requires forall k :: 0 <= k < |gs| && k != a ==> !Source(gs[k])
    ensures Collect(gs) == Fanout(gs[a].syncPartnerIds, gs[a].view.xMin, gs[a].view.xMax)
  {
    var init := gs[..|gs| - 1];
    if a == |gs| - 1 {
      NoSources(init);
    } else {
      SingleSourceFanout(init, a);
      assert Collect(gs) == Collect(init) + [];
    }
  }

  lemma {:induction false} NoSources(gs: seq<GraphState>)
    requires forall k :: 0 <= k < |gs| ==> !Source(gs[k])
    ensures Collect(gs) == []
  {
    if gs != [] {
      NoSources(gs[..|gs| - 1]);
    }
  }

  /** Every partner of the single changed graph is sent its window as the
      last write aimed at it, so after `SyncFrame` each partner that exists
      shows the same x window as `a` (for instance `[2, 8]`). */
  lemma SingleSourceReachesPartners(gs: seq<GraphState>, a: nat, p: nat)
    requires a < |gs| && Source(gs[a])
    requires forall k :: 0 <= k < |gs| && k != a ==> !Source(gs[k])
    requires p in gs[a].syncPartnerIds
    ensures LastFor(Collect(gs), p) == Some((gs[a].view.xMin, gs[a].view.xMax))
  {
    SingleSourceFanout(gs, a);
    var props := Collect(gs);
    var r := LastFor(props, p);
    var k :| 0 <= k < |gs[a].syncPartnerIds| && gs[a].syncPartnerIds[k] == p;
    assert props[k].target == p;
  }

  // ---------------------------------------------------------------------
  // Sync and unsync edits
  // ---------------------------------------------------------------------

  /** The partners of graph `gid`; none when there is no such graph. */
  function PartnersOf(app: AppState, gid: nat): seq<nat>
    reads app, app.graphs
  {
    var found := app.GraphById(gid);
    if found.Some? then found.value.syncPartnerIds else []
  }

  /** Unsync of graph `gid` (its partner list non-empty): every partner drops
      `gid` from its list, `gid`'s own list is cleared, links among the
      other graphs stay, and the group ids are recomputed. A graph that is
      missing or unsynced is left alone (the program then opens the sync
      dialog, which is not modelled). */
  method Unsync(app: AppState, gid: nat)
    requires app.Valid()
    modifies app.graphs`syncPartnerIds, app.graphs`syncGroupId
    ensures old(PartnersOf(app, gid)) == [] ==>
      forall k :: 0 <= k < |app.graphs| ==>
        app.graphs[k].syncPartnerIds == old(app.graphs[k].syncPartnerIds) &&
        app.graphs[k].syncGroupId == old(app.graphs[k].syncGroupId)
    ensures old(PartnersOf(app, gid)) != [] ==>
      forall k :: 0 <= k < |app.graphs| ==>
        app.graphs[k].syncPartnerIds ==
          if app.graphs[k].id == gid then []
          else if app.graphs[k].id in old(PartnersOf(app, gid)) then Without(old(app.graphs[k].syncPartnerIds), gid)
          else old(app.graphs[k].syncPartnerIds)
    ensures old(PartnersOf(app, gid)) != [] ==>
      forall k :: 0 <= k < |app.graphs| ==>
        app.graphs[k].syncGroupId == GroupId(app.graphs[k].id, app.graphs[k].syncPartnerIds)
  {
    var gs := app.graphs;
    var found := app.GraphById(gid);
    if found.None? || found.value.syncPartnerIds == [] {
      return;
    }
    UnlinkGraph(gs, found.value, gid);
  }

  /** The unsync of a found graph `g` with id `gid`: its partners drop it,
      its own list is cleared, and the groups are recomputed. */
  method UnlinkGraph(gs: seq<GraphState>, g: GraphState, gid: nat)
    requires UniqueIds(gs) && g in gs && g.id == gid
    modifies gs`syncPartnerIds, gs`syncGroupId
    ensures forall k :: 0 <= k < |gs| ==>
      gs[k].syncPartnerIds ==
        if gs[k].id == gid then []
        else if gs[k].id in old(g.syncPartnerIds) then Without(old(gs[k].syncPartnerIds), gid)
        else old(gs[k].syncPartnerIds)
    ensures forall k :: 0 <= k < |gs| ==> gs[k].syncGroupId == GroupId(gs[k].id, gs[k].syncPartnerIds)
  {
    assert forall k :: 0 <= k < |gs| ==> (gs[k] == g <==> gs[k].id == gid);
    DropFromPartners(gs, g.syncPartnerIds, gid);
    g.syncPartnerIds := [];
    RecomputeGroups(gs);
  }

  /** The graph with id `pid`, if any, drops `gid` from its partners. */
  method DropFromPartner(gs: seq<GraphState>, pid: nat, gid: nat)
    requires UniqueIds(gs)
    modifies gs`syncPartnerIds
    ensures forall k :: 0 <= k < |gs| ==>
      gs[k].syncPartnerIds ==
        if gs[k].id == pid then Without(old(gs[k].syncPartnerIds), gid) else old(gs[k].syncPartnerIds)
  {
    var pg := FirstWithId(gs, pid);
    if pg.Some? {
      var g := pg.value;
      ghost var m :| 0 <= m < |gs| && gs[m] == g;
      g.syncPartnerIds := Without(g.syncPartnerIds, gid);
      forall k | 0 <= k < |gs| && k != m
        ensures gs[k].id != pid
      {
        assert gs[k].id != gs[m].id;
      }
    } else {
      assert forall k :: 0 <= k < |gs| ==> gs[k].id != pid by {
        assert forall k :: 0 <= k < |gs| ==> Ids(gs)[k] == gs[k].id;
      }
    }
  }

  /** For each listed partner id, the graph with that id drops `gid`. */
  method DropFromPartners(gs: seq<GraphState>, partners: seq<nat>, gid: nat)
    requires UniqueIds(gs)
    modifies gs`syncPartnerIds
    ensures forall k :: 0 <= k < |gs| ==>
      gs[k].syncPartnerIds ==
        if gs[k].id in partners then Without(old(gs[k].syncPartnerIds), gid) else old(gs[k].syncPartnerIds)
  {
    for i := 0 to |partners|
      invariant forall k :: 0 <= k < |gs| ==>
        gs[k].syncPartnerIds ==
          if gs[k].id in partners[..i] then Without(old(gs[k].syncPartnerIds), gid) else old(gs[k].syncPartnerIds)
    {
      var pid := partners[i];
      assert partners[..i + 1] == partners[..i] + [pid];
      DropFromPartner(gs, pid, gid);
      forall k | 0 <= k < |gs|
        ensures gs[k].syncPartnerIds ==
          if gs[k].id in partners[..i + 1] then Without(old(gs[k].syncPartnerIds), gid) else old(gs[k].syncPartnerIds)
      {
        if gs[k].id == pid {
          WithoutTwice(old(gs[k].syncPartnerIds), gid);
        }
      }
    }
    assert partners[..|partners|] == partners;
  }

  /** The partner list of graph `self` after sync-apply with `group`: each
      other member not yet listed is appended, in group order. */
  function AddMissing(ps: seq<nat>, group: seq<nat>, self: nat): (r: seq<nat>)
    ensures |ps| <= |r| && r[..|ps|] == ps
    ensures forall x :: x in r <==> x in ps || (x in group && x != self)
  {
    if group == [] then ps
    else
      var r := AddMissing(ps, group[..|group| - 1], self);
      var o := group[|group| - 1];
      assert forall x :: x in group <==> x in group[..|group| - 1] || x == o;
      if o != self && o !in r then r + [o] else r
  }

  predicate NoDup(s: seq<nat>)
  {
    forall i, j :: 0 <= i < j < |s| ==> s[i] != s[j]
  }

  /** Sync-apply adds no self-entry and no duplicate: a list without them
      stays without them. */
  lemma {:induction false} AddMissingClean(ps: seq<nat>, group: seq<nat>, self: nat)
    requires NoDup(ps) && self !in ps
    ensures NoDup(AddMissing(ps, group, self)) && self !in AddMissing(ps, group, self)
  {
    if group != [] {
      AddMissingClean(ps, group[..|group| - 1], self);
    }
  }

  /** A list that already holds every other member is left as it is; in
      particular applying the same group twice is applying it once. */
  lemma {:induction false} AddMissingSaturated(ps: seq<nat>, group: seq<nat>, self: nat)
    requires forall x :: x in group && x != self ==> x in ps
    ensures AddMissing(ps, group, self) == ps
  {
    if group != [] {
      AddMissingSaturated(ps, group[..|group| - 1], self);
    }
  }

  lemma AddMissingTwice(ps: seq<nat>, group: seq<nat>, self: nat)
    ensures AddMissing(AddMissing(ps, group, self), group, self) == AddMissing(ps, group, self)
  {
    AddMissingSaturated(AddMissing(ps, group, self), group, self);
  }

  /** Partner lists are not closed transitively, so one connected group can
      carry two group ids: after syncing 1 with 3, syncing an unsynced 5 with
      3 gives 3 the partners [1, 5] (group id 1) but 5 only [3] (group id 3). */
  lemma ChainedSyncTwoGroupIds()
    ensures AddMissing([1], [5, 3], 3) == [1, 5]
    ensures AddMissing([], [5, 3], 5) == [3]
    ensures GroupId(3, [1, 5]) == Some(1) && GroupId(5, [3]) == Some(3)
  {
  }

  /** Applying the sync dialog's choice: `source` and the chosen graphs
      become pairwise partners; lists are only appended to, and group ids
      are recomputed. */
  method SyncApply(app: AppState, source: nat, chosen: seq<nat>)
    requires app.Valid()
    modifies app.graphs`syncPartnerIds, app.graphs`syncGroupId
    ensures forall k :: 0 <= k < |app.graphs| ==>
      var g := app.graphs[k];
      g.syncPartnerIds ==
        if g.id in [source] + chosen then AddMissing(old(g.syncPartnerIds), [source] + chosen, g.id)
        else old(g.syncPartnerIds)
    ensures forall k, j ::
      0 <= k < |app.graphs| && 0 <= j < |app.graphs| && k != j &&
      app.graphs[k].id in [source] + chosen && app.graphs[j].id in [source] + chosen
      ==> app.graphs[j].id in app.graphs[k].syncPartnerIds
    ensures forall k :: 0 <= k < |app.graphs| ==>
      app.graphs[k].syncGroupId == GroupId(app.graphs[k].id, app.graphs[k].syncPartnerIds)
  {
    var gs := app.graphs;
    var group := [source] + chosen;
    JoinGroup(gs, group);
    RecomputeGroups(gs);
    forall k, j | 0 <= k < |gs| && 0 <= j < |gs| && k != j && gs[k].id in group && gs[j].id in group
      ensures gs[j].id in gs[k].syncPartnerIds
    {
      assert gs[j].id != gs[k].id;
    }
  }

  /** Each member of `group` that exists gets every other member added. */
  method JoinGroup(gs: seq<GraphState>, group: seq<nat>)
    requires UniqueIds(gs)
    modifies gs`syncPartnerIds
    ensures forall k :: 0 <= k < |gs| ==>
      gs[k].syncPartnerIds ==
        if gs[k].id in group then AddMissing(old(gs[k].syncPartnerIds), group, gs[k].id)
        else old(gs[k].syncPartnerIds)
  {
    for i := 0 to |group|
      invariant forall k :: 0 <= k < |gs| ==>
        gs[k].syncPartnerIds ==
          if gs[k].id in group[..i] then AddMissing(old(gs[k].syncPartnerIds), group, gs[k].id)
          else old(gs[k].syncPartnerIds)
    {
      var member := group[i];
      assert group[..i + 1] == group[..i] + [member];
      label before:
      JoinMember(gs, group, member);
      forall k | 0 <= k < |gs|
        ensures gs[k].syncPartnerIds ==
          if gs[k].id in group[..i + 1] then AddMissing(old(gs[k].syncPartnerIds), group, gs[k].id)
          else old(gs[k].syncPartnerIds)
      {
        var ps := old(gs[k].syncPartnerIds);
        if gs[k].id == member {
          AddMissingTwice(ps, group, member);
        } else {
          assert gs[k].syncPartnerIds == old@before(gs[k].syncPartnerIds);
          assert gs[k].id in group[..i + 1] <==> gs[k].id in group[..i];
        }
      }
    }
    assert group[..|group|] == group;
  }

  /** The graph with id `member`, if any, gets every other member of
      `group` that it lacks. */
  method JoinMember(gs: seq<GraphState>, group: seq<nat>, member: nat)
    requires UniqueIds(gs)
    modifies gs`syncPartnerIds
    ensures forall k :: 0 <= k < |gs| ==>
      gs[k].syncPartnerIds ==
        if gs[k].id == member then AddMissing(old(gs[k].syncPartnerIds), group, member)
        else old(gs[k].syncPartnerIds)
  {
    var found := FirstWithId(gs, member);
    if found.Some? {
      var g := found.value;
      ghost var m :| 0 <= m < |gs| && gs[m] == g;
      var ps := AddOthers(g.syncPartnerIds, group, member);
      g.syncPartnerIds := ps;
      forall k | 0 <= k < |gs| && k != m
        ensures gs[k].syncPartnerIds == old(gs[k].syncPartnerIds)
      {
        assert gs[k].id != gs[m].id;
      }
    } else {
      assert forall k :: 0 <= k < |gs| ==> gs[k].id != member by {
        assert forall k :: 0 <= k < |gs| ==> Ids(gs)[k] == gs[k].id;
      }
    }
  }

  /** The inner loop of sync-apply for one member. */
  method AddOthers(ps: seq<nat>, group: seq<nat>, self: nat) returns (r: seq<nat>)
    ensures r == AddMissing(ps, group, self)
  {
    r := ps;
    for i := 0 to |group|
      invariant r == AddMissing(ps, group[..i], self)
    {
      assert group[..i + 1][..i] == group[..i];
      var other := group[i];
      if other != self && other !in r {
        r := r + [other];
      }
    }
    assert group[..|group|] == group;
  }

  // ---------------------------------------------------------------------
  // Graph reorder by drag and drop
  // ---------------------------------------------------------------------

  /** Where the moved graph is inserted once it has been removed. */
  function InsertAt(len: nat, from: nat, to: nat): (at: nat)
    requires from < len
    ensures at < len
  {
    var a := if to > from then to - 1 else to;
    if a < len - 1 then a else len - 1
  }

  /** `remove(from)` then `insert(at, graph)`. */
  function Reordered<T>(s: seq<T>, from: nat, to: nat): (r: seq<T>)
    requires from < |s|
    ensures |r| == |s|
  {
    var rest := s[..from] + s[from + 1..];
    var at := InsertAt(|s|, from, to);
    rest[..at] + [s[from]] + rest[at..]
  }

  /** The index in the old list of the element at `k` after the move. */
  function ReorderSource(from: nat, at: nat, k: nat): nat
  {
    if k < at then (if k < from then k else k + 1)
    else if k == at then from
    else (if k - 1 < from then k - 1 else k)
  }

  lemma ReorderedIndex<T>(s: seq<T>, from: nat, to: nat, k: nat)
    requires from < |s| && k < |s|
    ensures ReorderSource(from, InsertAt(|s|, from, to), k) < |s|
    ensures Reordered(s, from, to)[k] == s[ReorderSource(from, InsertAt(|s|, from, to), k)]
  {
  }

  /** The move is a permutation: no graph is lost or duplicated, and the
      moved graph lands at the insertion index. */
  lemma ReorderedIsPermutation<T>(s: seq<T>, from: nat, to: nat)
    requires from < |s|
    ensures multiset(Reordered(s, from, to)) == multiset(s)
    ensures Reordered(s, from, to)[InsertAt(|s|, from, to)] == s[from]
  {
    var rest := s[..from] + s[from + 1..];
    var at := InsertAt(|s|, from, to);
    assert s == s[..from] + [s[from]] + s[from + 1..];
    assert rest == rest[..at] + rest[at..];
    calc {
      multiset(Reordered(s, from, to));
      multiset(rest[..at]) + multiset([s[from]]) + multiset(rest[at..]);
      multiset(rest) + multiset([s[from]]);
      multiset(s);
    }
  }

  /** Distinct old positions give distinct new positions. */
  lemma ReorderSourceInjective(len: nat, from: nat, to: nat, k: nat, j: nat)
    requires from < len && k < len && j < len && k != j
    ensures ReorderSource(from, InsertAt(len, from, to), k) != ReorderSource(from, InsertAt(len, from, to), j)
  {
  }

  /** Moving a graph keeps ids unique and views owned. */
  lemma ReorderKeepsValid(gs: seq<GraphState>, from: nat, to: nat)
    requires from < |gs| && UniqueIds(gs) && OwnViews(gs)
    ensures UniqueIds(Reordered(gs, from, to)) && OwnViews(Reordered(gs, from, to))
  {
    var r := Reordered(gs, from, to);
    var at := InsertAt(|gs|, from, to);
    forall k, j | 0 <= k < j < |r|
      ensures r[k].id != r[j].id && r[k].view != r[j].view
    {
      ReorderedIndex(gs, from, to, k);
      ReorderedIndex(gs, from, to, j);
      ReorderSourceInjective(|gs|, from, to, k, j);
      var a, b := ReorderSource(from, at, k), ReorderSource(from, at, j);
      if a < b {
        assert gs[a].id != gs[b].id && gs[a].view != gs[b].view;
      } else {
        assert gs[b].id != gs[a].id && gs[b].view != gs[a].view;
      }
    }
  }

  /** The reorder step of a frame; a `from` past the end changes nothing. */
  method Reorder(app: AppState, from: nat, to: nat)
    modifies app`graphs
    ensures from < |old(app.graphs)| ==> app.graphs == Reordered(old(app.graphs), from, to)
    ensures from >= |old(app.graphs)| ==> app.graphs == old(app.graphs)
    ensures multiset(app.graphs) == multiset(old(app.graphs))
    ensures old(app.Valid()) ==> app.Valid()
  {
    var len := |app.graphs|;
    if from < len {
      if app.Valid() {
        ReorderKeepsValid(app.graphs, from, to);
      }
      ReorderedIsPermutation(app.graphs, from, to);
      var graph := app.graphs[from];
      app.graphs := app.graphs[..from] + app.graphs[from + 1..];
      var insertAt := if to > from then to - 1 else to;
      insertAt := if insertAt < |app.graphs| then insertAt else |app.graphs|;
      app.graphs := app.graphs[..insertAt] + [graph] + app.graphs[insertAt..];
    }
  }

  /** The drop target for a release over slot `idx` (above its middle when
      `topHalf`); the two targets that would leave the order as it is are
      rejected. */
  function DropTarget(idx: nat, topHalf: bool, from: nat): (r: Option<nat>)
    ensures var to := if topHalf then idx else idx + 1;
      (r.None? <==> to == from || to == from + 1) && (r.Some? ==> r.value == to)
  {
    var to := if topHalf then idx else idx + 1;
    if to == from || to == from + 1 then None else Some(to)
  }

  /** The rejected targets are exactly the no-op moves: dropping at `from`
      or `from + 1` gives back the same order, and with distinct graphs any
      other target up to the length changes it. */
  lemma RejectedTargetsAreNoOps<T>(s: seq<T>, from: nat)
    requires from < |s|
    ensures Reordered(s, from, from) == s
    ensures Reordered(s, from, from + 1) == s
  {
    assert s == s[..from] + [s[from]] + s[from + 1..];
    var rest := s[..from] + s[from + 1..];
    assert rest[..from] == s[..from];
    assert rest[from..] == s[from + 1..];
  }

  lemma AcceptedTargetsMove<T>(s: seq<T>, from: nat, to: nat)
    requires from < |s| && to <= |s| && to != from && to != from + 1
    requires forall i, j :: 0 <= i < j < |s| ==> s[i] != s[j]
    ensures Reordered(s, from, to) != s
  {
    var at := InsertAt(|s|, from, to);
    ReorderedIsPermutation(s, from, to);
    assert at != from;
    assert Reordered(s, from, to)[at] == s[from] != s[at];
  }

  // ---------------------------------------------------------------------
  // Ingesting selected columns
  // ---------------------------------------------------------------------

  /** The indices below `n` at which both columns hold finite values. */
  function KeptIndices2(xs: seq<F64>, ys: seq<F64>, n: nat): (r: seq<nat>)
    requires n <= |xs| && n <= |ys|
    ensures |r| <= n
    ensures forall k :: 0 <= k < |r| ==> r[k] < n && xs[r[k]].Fin? && ys[r[k]].Fin?
  {
    if n == 0 then []
    else KeptIndices2(xs, ys, n - 1) + (if xs[n - 1].Fin? && ys[n - 1].Fin? then [n - 1] else [])
  }

  /** The kept indices are increasing and miss no row where both columns
      are finite. */
  lemma {:induction false} KeptIndices2Exact(xs: seq<F64>, ys: seq<F64>, n: nat)
    requires n <= |xs| && n <= |ys|
    ensures forall k, j :: 0 <= k < j < |KeptIndices2(xs, ys, n)| ==> KeptIndices2(xs, ys, n)[k] < KeptIndices2(xs, ys, n)[j]
    ensures forall i :: 0 <= i < n && xs[i].Fin? && ys[i].Fin? ==> i in KeptIndices2(xs, ys, n)
  {
    if n > 0 {
      KeptIndices2Exact(xs, ys, n - 1);
      var p, r := KeptIndices2(xs, ys, n - 1), KeptIndices2(xs, ys, n);
      var last := if xs[n - 1].Fin? && ys[n - 1].Fin? then [n - 1] else [];
      assert r == p + last;
      forall k, j | 0 <= k < j < |r|
        ensures r[k] < r[j]
      {
        assert r[k] == p[k];
        if j < |p| {
          assert r[j] == p[j];
        }
      }
      forall i | 0 <= i < n && xs[i].Fin? && ys[i].Fin?
        ensures i in r
      {
        if i < n - 1 {
          assert i in p;
        } else {
          assert r[|p|] == i;
        }
      }
    }
  }

  /** The 2D filter of `process_column_selection`: the finite (x, y) pairs
      of the zipped columns, in order. */
  function Finite2(xs: seq<F64>, ys: seq<F64>, n: nat): (r: (seq<real>, seq<F64>))
    requires n <= |xs| && n <= |ys|
    ensures |r.0| == |r.1| <= n
    ensures forall k :: 0 <= k < |r.1| ==> r.1[k].Fin?
  {
    if n == 0 then ([], [])
    else
      var p := Finite2(xs, ys, n - 1);
      if xs[n - 1].Fin? && ys[n - 1].Fin? then (p.0 + [xs[n - 1].v], p.1 + [ys[n - 1]]) else p
  }

  /** The 2D filter keeps one value per index of `KeptIndices2`. */
  lemma {:induction false} Finite2Length(xs: seq<F64>, ys: seq<F64>, n: nat)
    requires n <= |xs| && n <= |ys|
    ensures |Finite2(xs, ys, n).0| == |KeptIndices2(xs, ys, n)|
  {
    if n > 0 {
      Finite2Length(xs, ys, n - 1);
    }
  }

  /** The 2D filter keeps exactly the rows `KeptIndices2` names, in order:
      its `k`-th pair is the row at the `k`-th kept index. */
  lemma {:induction false} Finite2Row(xs: seq<F64>, ys: seq<F64>, n: nat, k: nat)
    requires n <= |xs| && n <= |ys| && k < |KeptIndices2(xs, ys, n)|
    ensures var r, i := Finite2(xs, ys, n), KeptIndices2(xs, ys, n)[k];
      k < |r.0| && r.0[k] == xs[i].v && r.1[k] == ys[i]
  {
    Finite2Length(xs, ys, n);
    var p, pi := Finite2(xs, ys, n - 1), KeptIndices2(xs, ys, n - 1);
    Finite2Length(xs, ys, n - 1);
    if k < |pi| {
      Finite2Row(xs, ys, n - 1, k);
    }
  }

  /** The indices below `n` at which all three columns hold finite values. */
  function KeptIndices3(xs: seq<F64>, ys: seq<F64>, zs: seq<F64>, n: nat): (r: seq<nat>)
    requires n <= |xs| && n <= |ys| && n <= |zs|
    ensures |r| <= n
    ensures forall k :: 0 <= k < |r| ==> r[k] < n && xs[r[k]].Fin? && ys[r[k]].Fin? && zs[r[k]].Fin?
  {
    if n == 0 then []
    else KeptIndices3(xs, ys, zs, n - 1) + (if xs[n - 1].Fin? && ys[n - 1].Fin? && zs[n - 1].Fin? then [n - 1] else [])
  }

  /** The kept indices are increasing and miss no row where all three
      columns are finite. */
  lemma {:induction false} KeptIndices3Exact(xs: seq<F64>, ys: seq<F64>, zs: seq<F64>, n: nat)
    requires n <= |xs| && n <= |ys| && n <= |zs|
    ensures forall k, j :: 0 <= k < j < |KeptIndices3(xs, ys, zs, n)| ==>
      KeptIndices3(xs, ys, zs, n)[k] < KeptIndices3(xs, ys, zs, n)[j]
    ensures forall i :: 0 <= i < n && xs[i].Fin? && ys[i].Fin? && zs[i].Fin? ==> i in KeptIndices3(xs, ys, zs, n)
  {
    if n > 0 {
      KeptIndices3Exact(xs, ys, zs, n - 1);
      var p, r := KeptIndices3(xs, ys, zs, n - 1), KeptIndices3(xs, ys, zs, n);
      var last := if xs[n - 1].Fin? && ys[n - 1].Fin? && zs[n - 1].Fin? then [n - 1] else [];
      assert r == p + last;
      forall k, j | 0 <= k < j < |r|
        ensures r[k] < r[j]
      {
        assert r[k] == p[k];
        if j < |p| {
          assert r[j] == p[j];
        }
      }
      forall i | 0 <= i < n && xs[i].Fin? && ys[i].Fin? && zs[i].Fin?
        ensures i in r
      {
        if i < n - 1 {
          assert i in p;
        } else {
          assert r[|p|] == i;
        }
      }
    }
  }

  /** The 3D filter: the finite (x, y, z) triples, in order. */
  function Finite3(xs: seq<F64>, ys: seq<F64>, zs: seq<F64>, n: nat): (r: (seq<real>, seq<F64>, seq<real>))
    requires n <= |xs| && n <= |ys| && n <= |zs|
    ensures |r.0| == |r.1| == |r.2| <= n
    ensures forall k :: 0 <= k < |r.1| ==> r.1[k].Fin?
  {
    if n == 0 then ([], [], [])
    else
      var p := Finite3(xs, ys, zs, n - 1);
      if xs[n - 1].Fin? && ys[n - 1].Fin? && zs[n - 1].Fin? then
        (p.0 + [xs[n - 1].v], p.1 + [ys[n - 1]], p.2 + [zs[n - 1].v])
      else p
  }

  /** The 3D filter keeps one value per index of `KeptIndices3`. */
  lemma {:induction false} Finite3Length(xs: seq<F64>, ys: seq<F64>, zs: seq<F64>, n: nat)
    requires n <= |xs| && n <= |ys| && n <= |zs|
    ensures |Finite3(xs, ys, zs, n).0| == |KeptIndices3(xs, ys, zs, n)|
  {
    if n > 0 {
      Finite3Length(xs, ys, zs, n - 1);
    }
  }

  /** The 3D filter keeps exactly the rows `KeptIndices3` names, in order:
      its `k`-th triple is the row at the `k`-th kept index. */
  lemma {:induction false} Finite3Row(xs: seq<F64>, ys: seq<F64>, zs: seq<F64>, n: nat, k: nat)
    requires n <= |xs| && n <= |ys| && n <= |zs| && k < |KeptIndices3(xs, ys, zs, n)|
    ensures var r, i := Finite3(xs, ys, zs, n), KeptIndices3(xs, ys, zs, n)[k];
      k < |r.0| && r.0[k] == xs[i].v && r.1[k] == ys[i] && r.2[k] == zs[i].v
  {
    Finite3Length(xs, ys, zs, n);
    var p, pi := Finite3(xs, ys, zs, n - 1), KeptIndices3(xs, ys, zs, n - 1);
    Finite3Length(xs, ys, zs, n - 1);
    if k < |pi| {
      Finite3Row(xs, ys, zs, n - 1, k);
    }
  }

  function Min2(a: nat, b: nat): nat { if a < b then a else b }

  method FilterFinite2(xs: seq<F64>, ys: seq<F64>) returns (fx: seq<real>, fy: seq<F64>)
    ensures (fx, fy) == Finite2(xs, ys, Min2(|xs|, |ys|))
  {
    fx, fy := [], [];
    for i := 0 to Min2(|xs|, |ys|)
      invariant (fx, fy) == Finite2(xs, ys, i)
    {
      if xs[i].Fin? && ys[i].Fin? {
        fx, fy := fx + [xs[i].v], fy + [ys[i]];
      }
    }
  }

  method FilterFinite3(xs: seq<F64>, ys: seq<F64>, zs: seq<F64>) returns (fx: seq<real>, fy: seq<F64>, fz: seq<real>)
    ensures (fx, fy, fz) == Finite3(xs, ys, zs, Min2(Min2(|xs|, |ys|), |zs|))
  {
    fx, fy, fz := [], [], [];
    for i := 0 to Min2(Min2(|xs|, |ys|), |zs|)
      invariant (fx, fy, fz) == Finite3(xs, ys, zs, i)
    {
      if xs[i].Fin? && ys[i].Fin? && zs[i].Fin? {
        fx, fy, fz := fx + [xs[i].v], fy + [ys[i]], fz + [zs[i].v];
      }
    }
  }

  /** The legend label of an ingested column. */
  function ColumnLabel(column: string, unit: string): string
  {
    column + " (" + unit + ")"
  }

  /** The series one y column yields: `None` when no row survives the
      filter; otherwise a series with the inferred unit, the palette colour
      for `counter` and the id `id`. */
  function IngestedSeries(column: string, unit: string, xs: seq<F64>, ys: seq<F64>, zs: Option<seq<F64>>, counter: nat, id: nat): (r: Option<DataSeries>)
    ensures r.Some? ==> |r.value.x| == |r.value.y| > 0 && (forall k :: 0 <= k < |r.value.y| ==> r.value.y[k].Fin?)
    ensures r.Some? ==> r.value.unit == unit && r.value.color == ColorForIndex(counter)
    ensures r.Some? ==> r.value.name == ColumnLabel(column, unit) && r.value.id == id
    ensures r.Some? ==> (zs.Some? <==> HasZ(r.value)) && (zs.Some? ==> |r.value.z| == |r.value.x|)
    ensures r.Some? ==> |r.value.x| <= |xs| && |r.value.x| <= |ys|
  {
    if zs.Some? then
      var t := Finite3(xs, ys, zs.value, Min2(Min2(|xs|, |ys|), |zs.value|));
      if t.0 == [] then None
      else Some(NewSeries3d(id, ColumnLabel(column, unit), t.0, t.1, t.2, ColorForIndex(counter), unit))
    else
      var p := Finite2(xs, ys, Min2(|xs|, |ys|));
      if p.0 == [] then None
      else Some(NewSeries(id, ColumnLabel(column, unit), p.0, p.1, ColorForIndex(counter), unit))
  }

  /** The series the y columns yield in order, the palette counter and the
      id advancing by one for each series kept; a column without a finite
      row yields none. */
  function IngestAll(xs: seq<F64>, yNames: seq<string>, units: seq<string>, yCols: seq<seq<F64>>,
                     zs: Option<seq<F64>>, counter: nat, id: nat): seq<DataSeries>
    requires |yNames| == |units| == |yCols|
    decreases |yCols|
  {
    if yCols == [] then []
    else
      var rest := yCols[1..];
      match IngestedSeries(yNames[0], units[0], xs, yCols[0], zs, counter, id)
      case None => IngestAll(xs, yNames[1..], units[1..], rest, zs, counter, id)
      case Some(s) => [s] + IngestAll(xs, yNames[1..], units[1..], rest, zs, counter + 1, id + 1)
  }

  /** The unit inferred for each column name. */
  function InferUnits(names: seq<string>): (us: seq<string>)
    ensures |us| == |names|
  {
    seq(|names|, k requires 0 <= k < |names| => Units.InferUnit(names[k]))
  }

  /** Column `i` appends the series it yields, if any, before those of the
      later columns, which then number on from it. */
  lemma IngestAllStep(xs: seq<F64>, yNames: seq<string>, units: seq<string>, yCols: seq<seq<F64>>,
                      zs: Option<seq<F64>>, counter: nat, id: nat, i: nat)
    requires |yNames| == |units| == |yCols| && i < |yCols|
    ensures var o := IngestedSeries(yNames[i], units[i], xs, yCols[i], zs, counter, id);
      IngestAll(xs, yNames[i..], units[i..], yCols[i..], zs, counter, id) ==
        if o.Some? then [o.value] + IngestAll(xs, yNames[i + 1..], units[i + 1..], yCols[i + 1..], zs, counter + 1, id + 1)
        else IngestAll(xs, yNames[i + 1..], units[i + 1..], yCols[i + 1..], zs, counter, id)
  {
    assert yNames[i..][1..] == yNames[i + 1..] && units[i..][1..] == units[i + 1..] && yCols[i..][1..] == yCols[i + 1..];
  }

  /** The loop step of `IngestColumns`: appending what column `i` yields
      keeps "series so far + what the remaining columns yield" fixed. */
  lemma IngestFoldStep(xs: seq<F64>, yNames: seq<string>, units: seq<string>, yCols: seq<seq<F64>>,
                       zs: Option<seq<F64>>, i: nat, target: seq<DataSeries>,
                       before: seq<DataSeries>, c: nat, n: nat, after: seq<DataSeries>, c': nat, n': nat)
    requires |yNames| == |units| == |yCols| && i < |yCols|
    requires before + IngestAll(xs, yNames[i..], units[i..], yCols[i..], zs, c, n) == target
    requires IngestedSeries(yNames[i], units[i], xs, yCols[i], zs, c, n).None? ==>
      after == before && c' == c && n' == n
    requires IngestedSeries(yNames[i], units[i], xs, yCols[i], zs, c, n).Some? ==>
      after == before + [IngestedSeries(yNames[i], units[i], xs, yCols[i], zs, c, n).value] && c' == c + 1 && n' == n + 1
    ensures after + IngestAll(xs, yNames[i + 1..], units[i + 1..], yCols[i + 1..], zs, c', n') == target
  {
    var o := IngestedSeries(yNames[i], units[i], xs, yCols[i], zs, c, n);
    IngestAllStep(xs, yNames, units, yCols, zs, c, n, i);
    if o.Some? {
      AppendShift(before, o.value, IngestAll(xs, yNames[i + 1..], units[i + 1..], yCols[i + 1..], zs, c + 1, n + 1));
    }
  }

  /** A series as one column yields it: equal non-empty x and y, z exactly
      when a z column is given, the given id and palette colour. */
  predicate IngestedAs(s: DataSeries, zs: Option<seq<F64>>, counter: nat, id: nat)
  {
    |s.x| == |s.y| > 0 && (zs.Some? <==> HasZ(s)) && s.id == id && s.color == ColorForIndex(counter)
  }

  /** At most one series per column, the k-th with id `id + k` and the
      palette colour of `counter + k`. */
  lemma {:induction false} IngestAllShape(xs: seq<F64>, yNames: seq<string>, units: seq<string>, yCols: seq<seq<F64>>,
                                          zs: Option<seq<F64>>, counter: nat, id: nat)
    requires |yNames| == |units| == |yCols|
    decreases |yCols|
    ensures |IngestAll(xs, yNames, units, yCols, zs, counter, id)| <= |yCols|
    ensures forall k :: 0 <= k < |IngestAll(xs, yNames, units, yCols, zs, counter, id)| ==>
      IngestedAs(IngestAll(xs, yNames, units, yCols, zs, counter, id)[k], zs, counter + k, id + k)
  {
    if yCols != [] {
      var o := IngestedSeries(yNames[0], units[0], xs, yCols[0], zs, counter, id);
      var r := IngestAll(xs, yNames, units, yCols, zs, counter, id);
      if o.Some? {
        var tail := IngestAll(xs, yNames[1..], units[1..], yCols[1..], zs, counter + 1, id + 1);
        IngestAllShape(xs, yNames[1..], units[1..], yCols[1..], zs, counter + 1, id + 1);
        assert r == [o.value] + tail;
        forall k | 0 <= k < |r|
          ensures IngestedAs(r[k], zs, counter + k, id + k)
        {
          if k > 0 {
            assert r[k] == tail[k - 1];
            assert IngestedAs(tail[k - 1], zs, counter + 1 + (k - 1), id + 1 + (k - 1));
          }
        }
      } else {
        IngestAllShape(xs, yNames[1..], units[1..], yCols[1..], zs, counter, id);
      }
    }
  }

  /** Appending what the columns yield keeps the existing series as a
      prefix and adds at most one series per column, each with equal
      non-empty x and y and z exactly when a z column is given. */
  lemma IngestAppended(xs: seq<F64>, yNames: seq<string>, units: seq<string>, yCols: seq<seq<F64>>,
                       zs: Option<seq<F64>>, counter: nat, id: nat, before: seq<DataSeries>, after: seq<DataSeries>)
    requires |yNames| == |units| == |yCols|
    requires after == before + IngestAll(xs, yNames, units, yCols, zs, counter, id)
    ensures |before| <= |after| <= |before| + |yCols| && after[..|before|] == before
    ensures forall k :: |before| <= k < |after| ==>
      |after[k].x| == |after[k].y| > 0 && (zs.Some? <==> HasZ(after[k]))
  {
    var added := IngestAll(xs, yNames, units, yCols, zs, counter, id);
    IngestAllShape(xs, yNames, units, yCols, zs, counter, id);
    forall k | |before| <= k < |after|
      ensures |after[k].x| == |after[k].y| > 0 && (zs.Some? <==> HasZ(after[k]))
    {
      assert after[k] == added[k - |before|];
      assert IngestedAs(added[k - |before|], zs, counter + (k - |before|), id + (k - |before|));
    }
    assert after[..|before|] == before;
  }

  /** One y column of `process_column_selection`; returns the next free
      series id. */
  method IngestColumn(g: GraphState, column: string, unit: string, xs: seq<F64>, ys: seq<F64>, zs: Option<seq<F64>>, nextId: nat)
    returns (next: nat)
    modifies g`series, g`seriesCounter, g`yAxes
    ensures IngestedSeries(column, unit, xs, ys, zs, old(g.seriesCounter), nextId).None? ==>
      g.series == old(g.series) && g.seriesCounter == old(g.seriesCounter) && g.yAxes == old(g.yAxes) && next == nextId
    ensures IngestedSeries(column, unit, xs, ys, zs, old(g.seriesCounter), nextId).Some? ==>
      g.series == old(g.series) + [IngestedSeries(column, unit, xs, ys, zs, old(g.seriesCounter), nextId).value]
    ensures IngestedSeries(column, unit, xs, ys, zs, old(g.seriesCounter), nextId).Some? ==>
      g.seriesCounter == old(g.seriesCounter) + 1 && next == nextId + 1 &&
      IngestedSeries(column, unit, xs, ys, zs, old(g.seriesCounter), nextId).value.unit in g.yAxes
    ensures old(g.AxesCoverUnits()) ==> g.AxesCoverUnits()
    ensures |old(g.series)| <= |g.series| <= |old(g.series)| + 1 && g.series[..|old(g.series)|] == old(g.series)
    ensures forall k :: |old(g.series)| <= k < |g.series| ==>
      |g.series[k].x| == |g.series[k].y| > 0 && (zs.Some? <==> HasZ(g.series[k]))
    ensures next - nextId == |g.series| - |old(g.series)|
  {
    var s: DataSeries;
    if zs.Some? {
      var fx, fy, fz := FilterFinite3(xs, ys, zs.value);
      if fx == [] {
        return nextId;
      }
      s := NewSeries3d(nextId, ColumnLabel(column, unit), fx, fy, fz, ColorForIndex(g.seriesCounter), unit);
    } else {
      var fx, fy := FilterFinite2(xs, ys);
      if fx == [] {
        return nextId;
      }
      s := NewSeries(nextId, ColumnLabel(column, unit), fx, fy, ColorForIndex(g.seriesCounter), unit);
    }
    g.AddSeries(s);
    next := nextId + 1;
  }

  /** The title a graph without series gets from a selection. */
  function SelectionTitle(xName: string, yNames: seq<string>): string
  {
    if |yNames| == 1 then xName + " vs. " + yNames[0] else xName + " vs. Multiple Data"
  }

  /** The write-to-graph part of `process_column_selection`: axis metadata
      and title for an empty graph, 3D mode when a z column is given, then
      one series per y column that keeps some finite row. */
  method ProcessColumnSelection(g: GraphState, xName: string, isDatetime: bool, xs: seq<F64>,
                                yNames: seq<string>, yCols: seq<seq<F64>>, zs: Option<seq<F64>>, nextId: nat)
    returns (next: nat)
    requires |yNames| == |yCols|
    modifies g`series, g`seriesCounter, g`yAxes, g`title, g`xAxisIsDatetime, g`xAxisName, g`plotMode
    ensures old(g.series) == [] ==>
      g.xAxisIsDatetime == Some(isDatetime) && g.xAxisName == Some(xName) && g.title == SelectionTitle(xName, yNames)
    ensures old(g.series) != [] ==>
      g.xAxisIsDatetime == old(g.xAxisIsDatetime) && g.xAxisName == old(g.xAxisName) && g.title == old(g.title)
    ensures g.plotMode == if zs.Some? then Plot3D else old(g.plotMode)
    ensures |old(g.series)| <= |g.series| <= |old(g.series)| + |yCols| && g.series[..|old(g.series)|] == old(g.series)
    ensures forall k :: |old(g.series)| <= k < |g.series| ==>
      |g.series[k].x| == |g.series[k].y| > 0 && (zs.Some? <==> HasZ(g.series[k]))
    ensures next - nextId == |g.series| - |old(g.series)|
    ensures old(g.AxesCoverUnits()) ==> g.AxesCoverUnits()
    ensures g.series == old(g.series) + IngestAll(xs, yNames, InferUnits(yNames), yCols, zs, old(g.seriesCounter), nextId)
    ensures g.seriesCounter == old(g.seriesCounter) + (|g.series| - |old(g.series)|)
  {
    if g.series == [] {
      g.xAxisIsDatetime := Some(isDatetime);
      g.xAxisName := Some(xName);
      g.title := SelectionTitle(xName, yNames);
    }
    if zs.Some? {
      g.plotMode := Plot3D;
    }
    next := IngestColumns(g, xs, yNames, InferUnits(yNames), yCols, zs, nextId);
  }

  /** The loop of `process_column_selection` over the y columns: each one
      that keeps some finite row is appended as a new series. */
  method IngestColumns(g: GraphState, xs: seq<F64>, yNames: seq<string>, units: seq<string>, yCols: seq<seq<F64>>,
                       zs: Option<seq<F64>>, nextId: nat)
    returns (next: nat)
    requires |yNames| == |units| == |yCols|
    modifies g`series, g`seriesCounter, g`yAxes
    ensures g.series == old(g.series) + IngestAll(xs, yNames, units, yCols, zs, old(g.seriesCounter), nextId)
    ensures g.seriesCounter == old(g.seriesCounter) + (|g.series| - |old(g.series)|)
    ensures |old(g.series)| <= |g.series| <= |old(g.series)| + |yCols| && g.series[..|old(g.series)|] == old(g.series)
    ensures forall k :: |old(g.series)| <= k < |g.series| ==>
      |g.series[k].x| == |g.series[k].y| > 0 && (zs.Some? <==> HasZ(g.series[k]))
    ensures next - nextId == |g.series| - |old(g.series)|
    ensures old(g.AxesCoverUnits()) ==> g.AxesCoverUnits()
  {
    next := nextId;
    ghost var base := g.series;
    ghost var counter0 := g.seriesCounter;
    ghost var covered := g.AxesCoverUnits();
    ghost var all := IngestAll(xs, yNames, units, yCols, zs, counter0, nextId);
    for i := 0 to |yCols|
      invariant g.series + IngestAll(xs, yNames[i..], units[i..], yCols[i..], zs, g.seriesCounter, next) == base + all
      invariant g.seriesCounter - counter0 == next - nextId == |g.series| - |base|
      invariant covered ==> g.AxesCoverUnits()
    {
      ghost var before, c, n := g.series, g.seriesCounter, next;
      next := IngestColumn(g, yNames[i], units[i], xs, yCols[i], zs, next);
      IngestFoldStep(xs, yNames, units, yCols, zs, i, base + all, before, c, n, g.series, g.seriesCounter, next);
    }
    assert g.series == base + all;
    IngestAppended(xs, yNames, units, yCols, zs, counter0, nextId, base, g.series);
  }

  // ---------------------------------------------------------------------
  // Screenshot crop
  // ---------------------------------------------------------------------

  /** Rust's saturating float-to-`usize` cast: truncation, negatives to 0. */
  function AsUsize(r: real): nat
  {
    if r <= 0.0 then 0 else r.Floor
  }

  /** `ceil()` followed by the saturating cast. */
  function CeilUsize(r: real): nat
  {
    if r <= 0.0 then 0 else if r.Floor as real == r then r.Floor else r.Floor + 1
  }

  function SatSub(a: nat, b: nat): nat
  {
    if a >= b then a - b else 0
  }

  /** Pixel box `[x0, x1) × [y0, y1)` of the image. */
  datatype CropBox = CropBox(x0: nat, y0: nat, x1: nat, y1: nat)

  /** The panel rectangle in pixels, clamped to the image. */
  function CropBounds(rect: Rect, ppp: real, fullW: nat, fullH: nat): (b: CropBox)
    ensures b.x0 <= fullW && b.x1 <= fullW && b.y0 <= fullH && b.y1 <= fullH
    ensures AsUsize(rect.left * ppp) <= fullW ==> b.x0 == AsUsize(rect.left * ppp)
    ensures CeilUsize(rect.right * ppp) <= fullW ==> b.x1 == CeilUsize(rect.right * ppp)
    ensures AsUsize(rect.top * ppp) <= fullH ==> b.y0 == AsUsize(rect.top * ppp)
    ensures CeilUsize(rect.bottom * ppp) <= fullH ==> b.y1 == CeilUsize(rect.bottom * ppp)
  {
    CropBox(
      Min2(AsUsize(rect.left * ppp), fullW), Min2(AsUsize(rect.top * ppp), fullH),
      Min2(CeilUsize(rect.right * ppp), fullW), Min2(CeilUsize(rect.bottom * ppp), fullH))
  }

  function Channels(c: Rgba): seq<u8>
  {
    [c.r, c.g, c.b, c.a]
  }

  /** The bytes of the pixels `[start + x0, start + c1)` of the buffer. */
  function RowBytes(pixels: seq<Rgba>, start: nat, x0: nat, c1: nat): seq<u8>
    requires start + c1 <= |pixels|
    decreases c1
  {
    if c1 <= x0 then [] else RowBytes(pixels, start, x0, c1 - 1) + Channels(pixels[start + c1 - 1])
  }

  /** Row `r` ends no later than row `n` starts when `r < n`. */
  lemma RowEnd(fullW: nat, r: nat, n: nat)
    requires r < n
    ensures (r + 1) * fullW == r * fullW + fullW <= n * fullW
  {
    assert r * fullW + fullW == (r + 1) * fullW;
    RowsBefore(fullW, r + 1, n);
  }

  lemma RowsBefore(fullW: nat, r: nat, n: nat)
    requires r <= n
    ensures r * fullW <= n * fullW
  {
  }

  /** The bytes of rows `[y0, r1)`, columns `[x0, x1)`, row by row, of a
      row-major image `fullW` pixels wide. */
  function Cropped(pixels: seq<Rgba>, fullW: nat, x0: nat, x1: nat, y0: nat, r1: nat): seq<u8>
    requires x1 <= fullW && r1 * fullW <= |pixels|
    decreases r1
  {
    if r1 <= y0 then []
    else
      RowEnd(fullW, r1 - 1, r1);
      Cropped(pixels, fullW, x0, x1, y0, r1 - 1) + RowBytes(pixels, (r1 - 1) * fullW, x0, x1)
  }

  lemma {:induction false} RowBytesLength(pixels: seq<Rgba>, start: nat, x0: nat, c1: nat)
    requires start + c1 <= |pixels|
    decreases c1
    ensures |RowBytes(pixels, start, x0, c1)| == SatSub(c1, x0) * 4
  {
    if c1 > x0 {
      RowBytesLength(pixels, start, x0, c1 - 1);
    }
  }

  lemma MulSucc(w: nat, h: nat)
    ensures w * (h + 1) * 4 == w * h * 4 + w * 4
  {
  }

  /** The crop holds four bytes per pixel of the box. */
  lemma {:induction false} CroppedLength(pixels: seq<Rgba>, fullW: nat, x0: nat, x1: nat, y0: nat, r1: nat)
    requires x1 <= fullW && r1 * fullW <= |pixels|
    decreases r1
    ensures |Cropped(pixels, fullW, x0, x1, y0, r1)| == SatSub(x1, x0) * SatSub(r1, y0) * 4
  {
    if r1 > y0 {
      RowEnd(fullW, r1 - 1, r1);
      CroppedLength(pixels, fullW, x0, x1, y0, r1 - 1);
      RowBytesLength(pixels, (r1 - 1) * fullW, x0, x1);
      var w := SatSub(x1, x0);
      var h := SatSub(r1 - 1, y0);
      assert SatSub(r1, y0) == h + 1;
      MulSucc(w, h);
    }
  }

  /** One more row extends the crop by that row's bytes. */
  lemma CroppedStep(pixels: seq<Rgba>, fullW: nat, x0: nat, x1: nat, y0: nat, row: nat)
    requires x1 <= fullW && y0 <= row && (row + 1) * fullW <= |pixels|
    ensures row * fullW + x1 <= |pixels| && row * fullW <= |pixels|
    ensures Cropped(pixels, fullW, x0, x1, y0, row + 1)
      == Cropped(pixels, fullW, x0, x1, y0, row) + RowBytes(pixels, row * fullW, x0, x1)
  {
    RowEnd(fullW, row, row + 1);
  }

  /** The inner loop of the crop: the pixels `[start + x0, start + x1)`. */
  method CopyRow(pixels: seq<Rgba>, start: nat, x0: nat, x1: nat) returns (line: seq<u8>)
    requires start + x1 <= |pixels| && start + x0 <= |pixels|
    ensures line == RowBytes(pixels, start, x0, x1)
  {
    var col := x0;
    line := [];
    while col < x1
      invariant x0 <= col && (col <= x1 || col == x0)
      invariant line == RowBytes(pixels, start, x0, col)
      decreases x1 - col
    {
      line := line + Channels(pixels[start + col]);
      col := col + 1;
    }
  }

  /** The crop of the screenshot handler: four bytes per pixel of the
      clamped box, rows top to bottom. */
  method CropPixels(pixels: seq<Rgba>, fullW: nat, fullH: nat, b: CropBox) returns (bytes: seq<u8>, cw: nat, ch: nat)
    requires |pixels| == fullW * fullH && b.x0 <= fullW && b.x1 <= fullW && b.y0 <= fullH && b.y1 <= fullH
    ensures cw == SatSub(b.x1, b.x0) && ch == SatSub(b.y1, b.y0)
    ensures b.y1 * fullW <= |pixels|
    ensures bytes == Cropped(pixels, fullW, b.x0, b.x1, b.y0, b.y1)
    ensures |bytes| == cw * ch * 4
  {
    RowsBefore(fullW, b.y1, fullH);
    RowsBefore(fullW, b.y0, fullH);
    cw, ch := SatSub(b.x1, b.x0), SatSub(b.y1, b.y0);
    bytes := [];
    var row := b.y0;
    while row < b.y1
      invariant b.y0 <= row && (row <= b.y1 || row == b.y0)
      invariant row * fullW <= |pixels|
      invariant bytes == Cropped(pixels, fullW, b.x0, b.x1, b.y0, row)
      decreases b.y1 - row
    {
      assert (row + 1) * fullW <= |pixels| by {
        RowsBefore(fullW, row + 1, b.y1);
      }
      CroppedStep(pixels, fullW, b.x0, b.x1, b.y0, row);
      var line := CopyRow(pixels, row * fullW, b.x0, b.x1);
      bytes := bytes + line;
      row := row + 1;
    }
    CroppedLength(pixels, fullW, b.x0, b.x1, b.y0, b.y1);
  }

  /** The whole image as bytes, used when the graph has no recorded rect. */
  function AllBytes(pixels: seq<Rgba>): (r: seq<u8>)
    ensures |r| == 4 * |pixels|
  {
    if pixels == [] then [] else AllBytes(pixels[..|pixels| - 1]) + Channels(pixels[|pixels| - 1])
  }

  lemma {:induction false} AllBytesAppend(a: seq<Rgba>, b: seq<Rgba>)
    decreases |b|
    ensures AllBytes(a + b) == AllBytes(a) + AllBytes(b)
  {
    if b != [] {
      var b0 := b[..|b| - 1];
      assert (a + b)[..|a + b| - 1] == a + b0;
      AllBytesAppend(a, b0);
    } else {
      assert a + b == a;
    }
  }

  lemma {:induction false} RowBytesIsSlice(pixels: seq<Rgba>, start: nat, c: nat)
    requires start + c <= |pixels|
    decreases c
    ensures RowBytes(pixels, start, 0, c) == AllBytes(pixels[start..start + c])
  {
    if c > 0 {
      RowBytesIsSlice(pixels, start, c - 1);
      assert pixels[start..start + c][..c - 1] == pixels[start..start + c - 1];
    }
  }

  lemma {:induction false} FullCropPrefix(pixels: seq<Rgba>, fullW: nat, r: nat)
    requires r * fullW <= |pixels|
    decreases r
    ensures Cropped(pixels, fullW, 0, fullW, 0, r) == AllBytes(pixels[..r * fullW])
  {
    if r > 0 {
      RowEnd(fullW, r - 1, r);
      FullCropPrefix(pixels, fullW, r - 1);
      var start := (r - 1) * fullW;
      RowBytesIsSlice(pixels, start, fullW);
      assert pixels[..r * fullW] == pixels[..start] + pixels[start..start + fullW];
      AllBytesAppend(pixels[..start], pixels[start..start + fullW]);
    }
  }

  /** Cropping to the whole image gives the uncropped bytes: the two
      branches of the screenshot handler agree on a full-image rect. */
  lemma FullCropIsWholeImage(pixels: seq<Rgba>, fullW: nat, fullH: nat)
    requires |pixels| == fullW * fullH
    ensures Cropped(pixels, fullW, 0, fullW, 0, fullH) == AllBytes(pixels)
  {
    FullCropPrefix(pixels, fullW, fullH);
    assert pixels[..fullH * fullW] == pixels;
  }

  /** The bytes and size handed to the screenshot sink: the crop of the
      graph's last panel rect when there is one, else the whole image. */
  method ScreenshotBytes(pixels: seq<Rgba>, fullW: nat, fullH: nat, rect: Option<Rect>, ppp: real)
    returns (bytes: seq<u8>, w: nat, h: nat)
    requires |pixels| == fullW * fullH
    ensures rect.None? ==> bytes == AllBytes(pixels) && w == fullW && h == fullH
    ensures rect.Some? ==>
      var b := CropBounds(rect.value, ppp, fullW, fullH);
      w == SatSub(b.x1, b.x0) && h == SatSub(b.y1, b.y0) && b.y1 * fullW <= |pixels| &&
      bytes == Cropped(pixels, fullW, b.x0, b.x1, b.y0, b.y1)
    ensures |bytes| == w * h * 4
  {
    if rect.Some? {
      var b := CropBounds(rect.value, ppp, fullW, fullH);
      bytes, w, h := CropPixels(pixels, fullW, fullH, b);
    } else {
      bytes, w, h := AllBytes(pixels), fullW, fullH;
    }
  }
}
