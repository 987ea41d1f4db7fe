/** Deltas between routing-table snapshots (edge-ingress/src/caddy.rs, `diff_routes` and `diff_fqdns`). */
module Diff {
  import opened Common
  import opened Text
  import opened Routing

  function IdOf(k: RouteKey): string {
    k.tenant + ":" + k.app + if k.deployment == None then "" else ":" + k.deployment.value
  }

  function RouteId(e: RouteEntry): string { IdOf(e.Key()) }

  /** The routing-relevant fields that a diff compares. */
  predicate SameFields(a: RouteEntry, b: RouteEntry) {
    a.worker == b.worker && a.port == b.port && a.weight == b.weight && a.rps == b.rps && a.burst == b.burst
  }

  predicate SameRoute(a: RouteEntry, b: RouteEntry) { a.Key() == b.Key() && SameFields(a, b) }

  /** Entries by route id; a later entry replaces an earlier one with the same id. */
  function ById(es: seq<RouteEntry>): (m: map<string, RouteEntry>)
    ensures forall id :: id in m ==> RouteId(m[id]) == id && m[id] in es
    ensures forall e :: e in es ==> RouteId(e) in m
    decreases |es|
  {
    if es == [] then map[] else
    var n := |es| - 1;
    assert forall e :: e in es ==> e == es[n] || e in es[..n];
    ById(es[..n])[RouteId(es[n]) := es[n]]
  }

  function Ids(es: seq<RouteEntry>): set<string> { set e | e in es :: RouteId(e) }

  /** What the three parts of a diff hold. */
  ghost predicate IsDiff(prev: map<string, RouteEntry>, curr: map<string, RouteEntry>, added: seq<RouteEntry>,
      removed: seq<string>, changed: seq<RouteEntry>) {
    && (forall e :: e in added <==> RouteId(e) in curr && curr[RouteId(e)] == e && RouteId(e) !in prev)
    && (forall id :: id in removed <==> id in prev && id !in curr)
    && (forall e :: e in changed <==>
        RouteId(e) in curr && curr[RouteId(e)] == e && RouteId(e) in prev && !SameFields(prev[RouteId(e)], e))
    && NoDuplicates(added) && NoDuplicates(removed) && NoDuplicates(changed)
  }

  method DiffRoutes(prev: seq<RouteEntry>, curr: seq<RouteEntry>)
    returns (added: seq<RouteEntry>, removed: seq<string>, changed: seq<RouteEntry>)
    ensures IsDiff(ById(prev), ById(curr), added, removed, changed)
  {
    added := NewEntries(ById(prev), ById(curr));
    removed, changed := OldEntries(ById(prev), ById(curr));
  }

  method NewEntries(prevById: map<string, RouteEntry>, currById: map<string, RouteEntry>)
    returns (added: seq<RouteEntry>)
    requires forall id :: id in currById ==> RouteId(currById[id]) == id
    ensures forall e :: e in added <==> RouteId(e) in currById && currById[RouteId(e)] == e && RouteId(e) !in prevById
    ensures NoDuplicates(added)
  {
    added := [];
    var ids := ListOf(currById.Keys);
    for i := 0 to |ids|
      invariant forall e :: e in added <==>
          RouteId(e) in ids[..i] && RouteId(e) in currById && currById[RouteId(e)] == e && RouteId(e) !in prevById
      invariant NoDuplicates(added)
    {
      var id := ids[i];
      assert id in Elements(ids) && id !in ids[..i] && ids[..i + 1] == ids[..i] + [id];
      if id !in prevById {
        added := added + [currById[id]];
      }
    }
    assert ids[..|ids|] == ids && forall id :: id in ids <==> id in Elements(ids);
  }

  method OldEntries(prevById: map<string, RouteEntry>, currById: map<string, RouteEntry>)
    returns (removed: seq<string>, changed: seq<RouteEntry>)
    requires forall id :: id in currById ==> RouteId(currById[id]) == id
    ensures forall id :: id in removed <==> id in prevById && id !in currById
    ensures forall e :: e in changed <==>
              RouteId(e) in currById && currById[RouteId(e)] == e && RouteId(e) in prevById
                  && !SameFields(prevById[RouteId(e)], e)
    ensures NoDuplicates(removed) && NoDuplicates(changed)
  {
    removed, changed := [], [];
    var ids := ListOf(prevById.Keys);
    for i := 0 to |ids|
      invariant forall id :: id in removed <==> id in ids[..i] && id !in currById
      invariant forall e :: e in changed <==>
                  RouteId(e) in ids[..i] && RouteId(e) in currById && currById[RouteId(e)] == e
                      && RouteId(e) in prevById && !SameFields(prevById[RouteId(e)], e)
      invariant NoDuplicates(removed) && NoDuplicates(changed)
    {
      var id := ids[i];
      assert id in Elements(ids) && id !in ids[..i] && ids[..i + 1] == ids[..i] + [id];
      if id !in currById {
        removed := removed + [id];
      } else if !SameFields(prevById[id], currById[id]) {
        changed := changed + [currById[id]];
      }
    }
    assert ids[..|ids|] == ids && forall id :: id in ids <==> id in Elements(ids);
  }

  // ---------------------------------------------------------------- what a diff is good for

  /** Names without ':' make route ids unique, whether or not there is a deployment. */
  lemma RouteIdsAreInjective(k: RouteKey, l: RouteKey)
    requires ':' !in k.tenant && ':' !in k.app && ':' !in l.tenant && ':' !in l.app
    ensures IdOf(k) == IdOf(l) ==> k == l
  {
    SplitRouteId(k);
    SplitRouteId(l);
  }

  lemma SplitRouteId(k: RouteKey)
    requires ':' !in k.tenant && ':' !in k.app
    ensures SplitOnce(IdOf(k), ':').0 == k.tenant && SplitOnce(IdOf(k), ':').1.Some?
    ensures SplitOnce(SplitOnce(IdOf(k), ':').1.value, ':') == (k.app, k.deployment)
  {
    var inner := (k.app, k.deployment);
    var outer := (k.tenant, Some(Join(inner, ':')));
    assert Join(outer, ':') == IdOf(k);
    SplitJoin("", outer, ':');
    SplitJoin("", inner, ':');
  }

  /** The tenant and app part of an id. */
  function AppId(t: string, a: string): string { t + ":" + a }

  /** `y` is `x`, or `x`, a colon and more. */
  predicate Continues(y: string, x: string) { y == x || x + ":" <= y }

  /** When two apps can share a route id, exactly: for some deployments they do if and only if the id part of one
      continues that of the other. */
  lemma RouteIdsShareIff(t: string, a: string, u: string, b: string)
    ensures (exists d, e :: IdOf(RouteKey(t, a, d)) == IdOf(RouteKey(u, b, e))) <==>
            Continues(AppId(t, a), AppId(u, b)) || Continues(AppId(u, b), AppId(t, a))
  {
    if d, e :| IdOf(RouteKey(t, a, d)) == IdOf(RouteKey(u, b, e)) { SharedIdContinues(t, a, d, u, b, e); }
    if Continues(AppId(t, a), AppId(u, b)) { ContinuedIdIsShared(t, a, u, b); }
    if Continues(AppId(u, b), AppId(t, a)) { ContinuedIdIsShared(u, b, t, a); }
  }

  lemma SharedIdContinues(t: string, a: string, d: Option<string>, u: string, b: string, e: Option<string>)
    requires IdOf(RouteKey(t, a, d)) == IdOf(RouteKey(u, b, e))
    ensures Continues(AppId(t, a), AppId(u, b)) || Continues(AppId(u, b), AppId(t, a))
  {
    var x, y, id := AppId(t, a), AppId(u, b), IdOf(RouteKey(t, a, d));
    assert id[..|x|] == x && id[..|y|] == y;
    assert d.Some? ==> id[|x|] == ':';
    assert e.Some? ==> id[|y|] == ':';
    if |x| < |y| {
      assert x + ":" == y[..|x| + 1];
    } else if |y| < |x| {
      assert y + ":" == x[..|y| + 1];
    }
  }

  lemma ContinuedIdIsShared(t: string, a: string, u: string, b: string)
    requires Continues(AppId(t, a), AppId(u, b))
    ensures exists d, e :: IdOf(RouteKey(t, a, d)) == IdOf(RouteKey(u, b, e))
  {
    var x, y := AppId(t, a), AppId(u, b);
    if x == y {
      assert IdOf(RouteKey(t, a, None)) == IdOf(RouteKey(u, b, None));
    } else {
      var rest := x[|y| + 1..];
      assert x == y + (":" + rest);
      assert IdOf(RouteKey(t, a, None)) == IdOf(RouteKey(u, b, Some(rest)));
    }
  }

  /** Two tenants with one route id, of which a snapshot by id keeps one. */
  lemma ColonsCollide(port: u16)
    ensures var a := RouteEntry("acme:eu", "api", None, 100, "w", port, None, None, 0);
            var b := RouteEntry("acme", "eu", Some("api"), 100, "w", port, None, None, 0);
            a.Key() != b.Key() && RouteId(a) == RouteId(b) && |ById([a, b])| == 1
  {
    var a := RouteEntry("acme:eu", "api", None, 100, "w", port, None, None, 0);
    var b := RouteEntry("acme", "eu", Some("api"), 100, "w", port, None, None, 0);
    assert RouteId(a) == "acme:eu:api" == RouteId(b);
    assert [a, b][..1] == [a] && [a][..0] == [];
    assert ById([a]) == map[RouteId(a) := a];
    assert ById([a, b]) == map[RouteId(a) := b];
  }

  /** `es` lists the rows of `t`. */
  ghost predicate IsSnapshot(t: Routes, es: seq<RouteEntry>) {
    && Keyed(t)
    && (forall k :: k in t ==> t[k] in es)
    && (forall e :: e in es ==> e.Key() in t && t[e.Key()] == e)
  }

  ghost predicate NoColons(t: Routes) { forall k :: k in t ==> ':' !in k.tenant && ':' !in k.app }

  /** Different keys of the two tables have different ids. */
  ghost predicate IdsApart(t: Routes, u: Routes) {
    forall k, l :: (k in t || k in u) && (l in t || l in u) && IdOf(k) == IdOf(l) ==> k == l
  }

  lemma NoColonsApart(t: Routes, u: Routes)
    requires NoColons(t) && NoColons(u)
    ensures IdsApart(t, u)
  {
    forall k, l | (k in t || k in u) && (l in t || l in u) && IdOf(k) == IdOf(l) ensures k == l {
      RouteIdsAreInjective(k, l);
    }
  }

  /** The previous entries with the removals, additions and changes applied. */
  function Patched(prev: map<string, RouteEntry>, added: seq<RouteEntry>, removed: seq<string>,
      changed: seq<RouteEntry>): map<string, RouteEntry> {
    (prev - Elements(removed)) + ById(added) + ById(changed)
  }

  /** Soundness and completeness: the patched previous snapshot is the current one, row by row, on every
      compared field. */
  lemma DiffReconstructs(t: Routes, u: Routes, prev: seq<RouteEntry>, curr: seq<RouteEntry>, added: seq<RouteEntry>,
      removed: seq<string>, changed: seq<RouteEntry>)
    requires IsSnapshot(t, prev) && IsSnapshot(u, curr) && IdsApart(t, u)
    requires IsDiff(ById(prev), ById(curr), added, removed, changed)
    ensures var m := Patched(ById(prev), added, removed, changed);
            && (forall id :: id in m <==> exists k :: k in u && IdOf(k) == id)
            && (forall k :: k in u ==> IdOf(k) in m)
            && (forall k :: k in u ==>
                  var e, f := m[IdOf(k)], u[k];
                  && (e.tenant, e.app, e.deployment) == (f.tenant, f.app, f.deployment)
                  && (e.worker, e.port, e.weight, e.rps, e.burst) == (f.worker, f.port, f.weight, f.rps, f.burst))
  {
    var m := Patched(ById(prev), added, removed, changed);
    PatchedAgrees(ById(prev), ById(curr), added, removed, changed);
    forall id | id in ById(curr) ensures exists k :: k in u && IdOf(k) == id {
      assert ById(curr)[id].Key() in u;
    }
    forall k | k in u ensures IdOf(k) in m && SameRoute(m[IdOf(k)], u[k]) {
      var id := IdOf(k);
      if m[id] != u[k] {
        assert id in ById(prev) && m[id] == ById(prev)[id] && ById(prev)[id] in prev;
        assert m[id].Key() in t && IdOf(m[id].Key()) == id;
      }
    }
  }

  lemma PatchedAgrees(prev: map<string, RouteEntry>, curr: map<string, RouteEntry>, added: seq<RouteEntry>,
      removed: seq<string>, changed: seq<RouteEntry>)
    requires forall id :: id in curr ==> RouteId(curr[id]) == id
    requires IsDiff(prev, curr, added, removed, changed)
    ensures var m := Patched(prev, added, removed, changed);
            && m.Keys == curr.Keys
            && forall id :: id in m ==>
                m[id] == curr[id] || (id in prev && m[id] == prev[id] && SameFields(prev[id], curr[id]))
  {
    var m := Patched(prev, added, removed, changed);
    assert forall id :: id in prev && id in curr && !SameFields(prev[id], curr[id]) ==> curr[id] in changed;
    forall id ensures id in m <==> id in curr {
      if id in curr && id !in prev { assert curr[id] in added; }
      if id in ById(added) { assert ById(added)[id] in added; }
      if id in ById(changed) { assert ById(changed)[id] in changed; }
    }
    forall id | id in m
        ensures m[id] == curr[id] || (id in prev && m[id] == prev[id] && SameFields(prev[id], curr[id])) {
      if id in ById(changed) {
        assert ById(changed)[id] in changed;
      } else if id in ById(added) {
        assert ById(added)[id] in added;
      } else {
        assert id in prev;
      }
    }
  }

  /** The three parts concern different routes, and all are empty exactly when nothing compared differs. */
  lemma DiffIsMinimal(prev: map<string, RouteEntry>, curr: map<string, RouteEntry>, added: seq<RouteEntry>,
      removed: seq<string>, changed: seq<RouteEntry>)
    requires forall id :: id in curr ==> RouteId(curr[id]) == id
    requires IsDiff(prev, curr, added, removed, changed)
    ensures Ids(added) !! Ids(changed) && Ids(added) !! Elements(removed) && Ids(changed) !! Elements(removed)
    ensures added == [] && removed == [] && changed == [] <==>
            prev.Keys == curr.Keys && forall id :: id in prev && id in curr ==>
              var e, f := prev[id], curr[id];
              (e.worker, e.port, e.weight, e.rps, e.burst) == (f.worker, f.port, f.weight, f.rps, f.burst)
  {
    assert forall id :: id in curr && id !in prev ==> curr[id] in added;
    assert forall id :: id in prev && id !in curr ==> id in removed;
    assert forall id :: id in prev && id in curr && !SameFields(prev[id], curr[id]) ==> curr[id] in changed;
    assert added != [] ==> added[0] in added;
    assert removed != [] ==> removed[0] in removed;
    assert changed != [] ==> changed[0] in changed;
  }

  // ---------------------------------------------------------------- custom domains

  function Names(bs: seq<Binding>): set<string> { set b | b in bs :: b.fqdn }

  /** The names bound in `bs` that are not in `known`, in order. */
  function NamesBeyond(bs: seq<Binding>, known: set<string>): (r: seq<string>)
    ensures Elements(r) == Names(bs) - known
  {
    if bs == [] then [] else
    var rest := NamesBeyond(bs[1..], known);
    assert Names(bs) == {bs[0].fqdn} + Names(bs[1..]);
    assert Elements([bs[0].fqdn] + rest) == {bs[0].fqdn} + Elements(rest);
    if bs[0].fqdn in known then rest else [bs[0].fqdn] + rest
  }

  function DiffFqdns(prev: seq<Binding>, curr: seq<Binding>): (r: (seq<string>, seq<string>))
    ensures Elements(r.0) == Names(curr) - Names(prev) && Elements(r.1) == Names(prev) - Names(curr)
  {
    (NamesBeyond(curr, Names(prev)), NamesBeyond(prev, Names(curr)))
  }
}
