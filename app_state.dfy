/**
 * The application state: the ordered list of graphs and the bookkeeping of
 * their sync groups. Each graph's `syncPartnerIds` is an adjacency list of
 * graph ids, not closed transitively; `syncGroupId` caches the least of the
 * graph's own id and its direct partners' ids.
 */
module State {
  import opened Common
  import opened Graph

  /** No two graphs share an id (the program draws ids from a global counter). */
  predicate UniqueIds(gs: seq<GraphState>)
  {
    forall i, j :: 0 <= i < j < |gs| ==> gs[i].id != gs[j].id
  }

  /** Every graph owns its own 2D view. */
  predicate OwnViews(gs: seq<GraphState>)
  {
    forall i, j :: 0 <= i < j < |gs| ==> gs[i].view != gs[j].view
  }

  function Ids(gs: seq<GraphState>): (r: seq<nat>)
    ensures |r| == |gs| && forall k :: 0 <= k < |gs| ==> r[k] == gs[k].id
  {
    if gs == [] then [] else Ids(gs[..|gs| - 1]) + [gs[|gs| - 1].id]
  }

  /** `ids.retain(|id| *id != gid)`. */
  function Without(ids: seq<nat>, gid: nat): (r: seq<nat>)
    ensures forall x :: x in r <==> x in ids && x != gid
    ensures |r| <= |ids|
  {
    if ids == [] then []
    else Without(ids[..|ids| - 1], gid) + (if ids[|ids| - 1] == gid then [] else [ids[|ids| - 1]])
  }

  /** Removing an id that is absent changes nothing. */
  lemma {:induction false} WithoutAbsent(ids: seq<nat>, gid: nat)
    requires gid !in ids
    ensures Without(ids, gid) == ids
  {
    if ids != [] {
      var init := ids[..|ids| - 1];
      assert ids == init + [ids[|ids| - 1]];
      WithoutAbsent(init, gid);
    }
  }

  /** Removing twice is removing once. */
  lemma WithoutTwice(ids: seq<nat>, gid: nat)
    ensures Without(Without(ids, gid), gid) == Without(ids, gid)
  {
    WithoutAbsent(Without(ids, gid), gid);
  }

  /** The smallest of a non-empty list of ids. */
  function MinOf(ids: seq<nat>): (m: nat)
    requires ids != []
    ensures m in ids && forall x :: x in ids ==> m <= x
  {
    if |ids| == 1 then ids[0]
    else
      var rest := MinOf(ids[1..]);
      assert forall x :: x in ids ==> x == ids[0] || x in ids[1..];
      if ids[0] <= rest then ids[0] else rest
  }

  /** The group id a graph gets from `recompute_sync_groups`. */
  function GroupId(id: nat, partners: seq<nat>): (r: Option<nat>)
    ensures r.None? <==> partners == []
    ensures r.Some? ==> r.value <= id && (r.value == id || r.value in partners)
    ensures r.Some? ==> forall p :: p in partners ==> r.value <= p
  {
    if partners == [] then None else Some(if id <= MinOf(partners) then id else MinOf(partners))
  }

  /** Two graphs that are partners of each other get the same group id when
      neither has any other partner. */
  lemma PairSharesGroup(a: nat, b: nat)
    ensures GroupId(a, [b]) == GroupId(b, [a])
  {
  }

  /** `graphs.retain(|g| g.id != gid)`. */
  function KeepOthers(gs: seq<GraphState>, gid: nat): (r: seq<GraphState>)
    ensures forall k :: 0 <= k < |r| ==> r[k] in gs && r[k].id != gid
    ensures forall k :: 0 <= k < |gs| && gs[k].id != gid ==> gs[k] in r
    ensures |r| <= |gs|
  {
    if gs == [] then []
    else KeepOthers(gs[..|gs| - 1], gid) + (if gs[|gs| - 1].id == gid then [] else [gs[|gs| - 1]])
  }

  /** Filtering keeps the graph ids unique. */
  lemma {:induction false} KeepOthersUnique(gs: seq<GraphState>, gid: nat)
    requires UniqueIds(gs)
    ensures UniqueIds(KeepOthers(gs, gid))
  {
    if gs != [] {
      var init := gs[..|gs| - 1];
      var last := gs[|gs| - 1];
      KeepOthersUnique(init, gid);
      var r0 := KeepOthers(init, gid);
      assert forall k :: 0 <= k < |r0| ==> r0[k].id != last.id;
    }
  }

  /** Filtering keeps every graph's view its own. */
  lemma {:induction false} KeepOthersOwnViews(gs: seq<GraphState>, gid: nat)
    requires OwnViews(gs)
    ensures OwnViews(KeepOthers(gs, gid))
  {
    if gs != [] {
      var init := gs[..|gs| - 1];
      var last := gs[|gs| - 1];
      KeepOthersOwnViews(init, gid);
      var r0 := KeepOthers(init, gid);
      assert forall k :: 0 <= k < |r0| ==> r0[k].view != last.view;
    }
  }

  /** Filtering out an id no graph has changes nothing. */
  lemma {:induction false} KeepOthersAbsent(gs: seq<GraphState>, gid: nat)
    requires gid !in Ids(gs)
    ensures KeepOthers(gs, gid) == gs
  {
    if gs != [] {
      var init := gs[..|gs| - 1];
      assert gs == init + [gs[|gs| - 1]];
      assert Ids(init) == Ids(gs)[..|gs| - 1];
      KeepOthersAbsent(init, gid);
    }
  }

  /** With unique ids, filtering out an id some graph has removes exactly
      that one graph. */
  lemma {:induction false} KeepOthersRemovesOne(gs: seq<GraphState>, gid: nat)
    requires UniqueIds(gs) && gid in Ids(gs)
    ensures |KeepOthers(gs, gid)| == |gs| - 1
  {
    var init := gs[..|gs| - 1];
    var last := gs[|gs| - 1];
    assert Ids(init) == Ids(gs)[..|gs| - 1];
    if last.id == gid {
      assert gid !in Ids(init);
      KeepOthersAbsent(init, gid);
    } else {
      assert gid in Ids(init);
      KeepOthersRemovesOne(init, gid);
    }
  }

  /** The partner-list pass of `remove_graph`. */
  method StripPartner(gs: seq<GraphState>, gid: nat)
    modifies gs`syncPartnerIds
    ensures forall g :: g in gs ==> g.syncPartnerIds == Without(old(g.syncPartnerIds), gid)
  {
    for i := 0 to |gs|
      invariant forall g :: g in gs[..i] ==> g.syncPartnerIds == Without(old(g.syncPartnerIds), gid)
      invariant forall g :: g in gs && g !in gs[..i] ==> g.syncPartnerIds == old(g.syncPartnerIds)
    {
      var g := gs[i];
      WithoutTwice(old(g.syncPartnerIds), gid);
      g.syncPartnerIds := Without(g.syncPartnerIds, gid);
      assert gs[..i + 1] == gs[..i] + [g];
    }
    assert gs[..|gs|] == gs;
  }

  /** `recompute_sync_groups` over a list of graphs. */
  method RecomputeGroups(gs: seq<GraphState>)
    modifies gs`syncGroupId
    ensures forall g :: g in gs ==> g.syncGroupId == GroupId(g.id, g.syncPartnerIds)
  {
    for i := 0 to |gs|
      invariant forall g :: g in gs[..i] ==> g.syncGroupId == GroupId(g.id, g.syncPartnerIds)
    {
      var g := gs[i];
      if g.syncPartnerIds == [] {
        g.syncGroupId := None;
      } else {
        var m := MinPartner(g.syncPartnerIds);
        g.syncGroupId := Some(if g.id <= m then g.id else m);
      }
      assert gs[..i + 1] == gs[..i] + [g];
    }
    assert gs[..|gs|] == gs;
  }

  /** `iter().copied().min()` on a non-empty list. */
  method MinPartner(ids: seq<nat>) returns (m: nat)
    requires ids != []
    ensures m == MinOf(ids)
  {
    m := ids[0];
    for i := 1 to |ids|
      invariant m in ids[..i] && forall x :: x in ids[..i] ==> m <= x
    {
      if ids[i] < m {
        m := ids[i];
      }
      assert ids[..i + 1] == ids[..i] + [ids[i]];
    }
    assert ids[..|ids|] == ids;
    MinOfUnique(ids, m);
  }

  /** The least element of a list is unique. */
  lemma MinOfUnique(ids: seq<nat>, m: nat)
    requires ids != []
    requires m in ids && forall x :: x in ids ==> m <= x
    ensures m == MinOf(ids)
  {
  }

  class AppState {
    var graphs: seq<GraphState>

    predicate Valid()
      reads this
    {
      UniqueIds(graphs) && OwnViews(graphs)
    }

    /** `AppState::new`: one empty graph, with the given first graph id. */
    constructor (firstId: nat)
      ensures |graphs| == 1 && fresh(graphs[0]) && fresh(graphs[0].view)
      ensures graphs[0].id == firstId && graphs[0].series == [] && graphs[0].syncPartnerIds == []
      ensures Valid()
    {
      var g := new GraphState(firstId);
      graphs := [g];
    }

    /** `add_graph`: appends one new graph and returns it. */
    method AddGraph(freshId: nat) returns (g: GraphState)
      modifies this`graphs
      ensures graphs == old(graphs) + [g]
      ensures fresh(g) && fresh(g.view) && g.id == freshId && g.series == [] && g.syncPartnerIds == []
      ensures old(Valid()) && freshId !in Ids(old(graphs)) ==> Valid()
    {
      g := new GraphState(freshId);
      graphs := graphs + [g];
    }

    /** `graph_by_id`: the first graph with that id. */
    function GraphById(id: nat): (r: Option<GraphState>)
      reads this
      ensures r.Some? ==> r.value in graphs && r.value.id == id
      ensures r.None? <==> id !in Ids(graphs)
      ensures r.Some? ==>
        exists k :: 0 <= k < |graphs| && graphs[k] == r.value &&
          (forall j :: 0 <= j < k ==> graphs[j].id != id)
    {
      FirstWithId(graphs, id)
    }

    /** `recompute_sync_groups`. */
    method RecomputeSyncGroups()
      modifies graphs`syncGroupId
      ensures forall g :: g in graphs ==> g.syncGroupId == GroupId(g.id, g.syncPartnerIds)
    {
      RecomputeGroups(graphs);
    }

    /** `remove_graph`: drops the graph, removes its id from every partner
        list and recomputes the group ids of the remaining graphs. */
    method RemoveGraph(gid: nat)
      modifies this`graphs, graphs`syncPartnerIds, graphs`syncGroupId
      ensures graphs == KeepOthers(old(graphs), gid)
      ensures forall g :: g in old(graphs) ==> g.syncPartnerIds == Without(old(g.syncPartnerIds), gid)
      ensures forall g :: g in graphs ==> g.id != gid && gid !in g.syncPartnerIds
      ensures forall g :: g in graphs ==> g.syncGroupId == GroupId(g.id, g.syncPartnerIds)
      ensures old(Valid()) ==> Valid()
    {
      StripPartner(graphs, gid);
      if Valid() {
        KeepOthersUnique(graphs, gid);
        KeepOthersOwnViews(graphs, gid);
      }
      graphs := KeepOthers(graphs, gid);
      RecomputeGroups(graphs);
    }
  }

  function FirstWithId(gs: seq<GraphState>, id: nat): (r: Option<GraphState>)
    ensures r.Some? ==> r.value in gs && r.value.id == id
    ensures r.None? <==> id !in Ids(gs)
    ensures r.Some? ==>
      exists k :: 0 <= k < |gs| && gs[k] == r.value &&
        (forall j :: 0 <= j < k ==> gs[j].id != id)
  {
    if gs == [] then None
    else if gs[0].id == id then Some(gs[0])
    else
      assert Ids(gs) == [gs[0].id] + Ids(gs[1..]);
      var r := FirstWithId(gs[1..], id);
      assert r.Some? ==> gs[1..] == gs[1..];
      r
  }
}
