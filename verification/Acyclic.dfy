/** A pool can be ranked exactly when the references that linking follows make no cycle. */
module Acyclic {
  import opened SchemaTree

  /** The templates of which linking a copy of `name` makes copies. */
  ghost function Refs(pool: Pool, known: Cycles, name: string): set<string>
    requires name in pool
  {
    var t := pool[name];
    if t.isCollection then {MemberType(name)}
    else
      (set f | f in t.props && NavField(t, f) && !IsCycle(known, name, f, t.props[f].target) :: t.props[f].target) +
      (set o, c | o in t.props && t.props[o].PObject? && c in t.props[o].fields && NavChild(t, o, c) &&
                  !IsCycle(known, name, c, t.props[o].fields[c].target) :: t.props[o].fields[c].target) +
      (set f | f in t.props && NavArray(t, f) :: t.props[f].elementType)
  }

  /** Everything that a pool must satisfy, but for the absence of cycles. */
  ghost predicate TemplateSound(pool: Pool, known: Cycles, name: string)
    requires name in pool
  {
    var t := pool[name];
    && (forall f :: f in t.props ==> Unlinked(t.props[f]))
    && (if t.isCollection then
          && HasSuffix(name, COLLECTION)
          && MemberType(name) in pool && !pool[MemberType(name)].isCollection
          && (forall f :: f in t.props ==> !NavField(t, f) && !NavArray(t, f))
        else
          && (forall f :: NavField(t, f) ==> t.props[f].target in pool)
          && (forall o, c :: NavChild(t, o, c) ==> t.props[o].fields[c].target in pool)
          && (forall f :: NavArray(t, f) ==> t.props[f].elementType in pool)
          && (forall o, c :: NavChild(t, o, c) ==> c !in t.props)
          && (forall o, o', c :: NavChild(t, o, c) && NavChild(t, o', c) ==> o == o'))
  }

  ghost predicate PoolSound(pool: Pool, known: Cycles) {
    && SERVICE_ROOT in pool && !pool[SERVICE_ROOT].isCollection && CYCLE !in pool
    && (forall name {:trigger TemplateSound(pool, known, name)} :: name in pool ==> TemplateSound(pool, known, name))
  }

  type Graph = map<string, set<string>>

  ghost function RefGraph(pool: Pool, known: Cycles): Graph {
    map name | name in pool :: Refs(pool, known, name)
  }

  /** Names from `path[i]` to `path[i + 1]`. */
  ghost predicate Hop(g: Graph, path: seq<string>, i: nat) {
    i + 1 < |path| && path[i] in g && path[i + 1] in g[path[i]]
  }

  ghost predicate IsWalk(g: Graph, path: seq<string>) {
    forall i: nat {:trigger Hop(g, path, i)} :: i + 1 < |path| ==> Hop(g, path, i)
  }

  /** No walk along references comes back to where it started. */
  ghost predicate NoCycle(g: Graph) {
    forall path {:trigger IsWalk(g, path)} :: IsWalk(g, path) && |path| > 1 ==> path[0] != path[|path| - 1]
  }

  // ---------- From no cycle to a rank ----------

  lemma {:induction false} Pigeonhole(path: seq<string>, names: set<string>) returns (i: nat, j: nat)
    requires |path| > |names| && forall k :: 0 <= k < |path| ==> path[k] in names
    ensures i < j < |path| && path[i] == path[j]
    decreases |path|
  {
    var rest := path[1..];
    if m :| 0 <= m < |rest| && rest[m] == path[0] {
      i, j := 0, m + 1;
    } else {
      i, j := Pigeonhole(rest, names - {path[0]});
      i, j := i + 1, j + 1;
    }
  }

  lemma OneMoreHop(g: Graph, path: seq<string>, next: string)
    requires IsWalk(g, path) && path != [] && path[|path| - 1] in g && next in g[path[|path| - 1]]
    ensures IsWalk(g, path + [next])
  {
    forall i: nat {:trigger Hop(g, path + [next], i)} | i + 1 < |path + [next]|
      ensures Hop(g, path + [next], i)
    {
      assert i + 1 < |path| ==> Hop(g, path, i);
    }
  }

  /** Where every name refers to another of the set, walks can be made as long as one likes. */
  lemma {:induction false} LongWalk(g: Graph, names: set<string>, n: nat) returns (path: seq<string>)
    requires names <= g.Keys && names != {}
    requires forall name :: name in names ==> !(g[name] !! names)
    ensures |path| == n + 1 && IsWalk(g, path) && forall k :: 0 <= k < |path| ==> path[k] in names
  {
    if n == 0 {
      var name :| name in names;
      path := [name];
    } else {
      var shorter := LongWalk(g, names, n - 1);
      var last := shorter[n - 1];
      var next :| next in g[last] && next in names;
      path := shorter + [next];
      OneMoreHop(g, shorter, next);
    }
  }

  lemma RepetitionIsCycle(g: Graph, path: seq<string>, i: nat, j: nat)
    requires IsWalk(g, path) && i < j < |path| && path[i] == path[j]
    ensures !NoCycle(g)
  {
    var part := path[i..j + 1];
    forall k: nat {:trigger Hop(g, part, k)} | k + 1 < |part|
      ensures Hop(g, part, k)
    {
      assert Hop(g, path, i + k);
    }
    assert IsWalk(g, part) && part[0] == part[|part| - 1];
  }

  lemma HasMinimal(g: Graph, names: set<string>)
    requires NoCycle(g) && names <= g.Keys && names != {}
    ensures exists name :: name in names && g[name] !! names
  {
    if forall name :: name in names ==> !(g[name] !! names) {
      var path := LongWalk(g, names, |names|);
      var i, j := Pigeonhole(path, names);
      RepetitionIsCycle(g, path, i, j);
    }
  }

  ghost predicate Ranked(g: Graph, rank: map<string, nat>) {
    forall name, ref :: name in rank && name in g && ref in g[name] ==> ref in rank && rank[ref] < rank[name]
  }

  lemma OneMoreKey(rank: map<string, nat>, name: string, value: nat)
    requires name !in rank
    ensures rank[name := value].Keys == rank.Keys + {name} && |rank[name := value]| == |rank| + 1
  {
    assert rank[name := value].Keys == rank.Keys + {name};
    assert |rank[name := value].Keys| == |rank.Keys| + 1;
  }

  lemma RankOneMore(g: Graph, rank: map<string, nat>, name: string)
    requires name !in rank && name in g && g[name] <= rank.Keys
    requires Ranked(g, rank) && forall n :: n in rank ==> rank[n] < |rank|
    ensures Ranked(g, rank[name := |rank|])
  {
    var more := rank[name := |rank|];
    forall n, ref | n in more && n in g && ref in g[n]
      ensures ref in more && more[ref] < more[n]
    {
      if n == name {
        assert ref in rank.Keys;
      }
    }
  }

  ghost predicate RankedSoFar(g: Graph, rank: map<string, nat>) {
    rank.Keys <= g.Keys && Ranked(g, rank) && forall name :: name in rank ==> rank[name] < |rank|
  }

  /** Some name refers only to names that are ranked already. */
  lemma NextName(g: Graph, rank: map<string, nat>) returns (name: string)
    requires NoCycle(g) && rank.Keys < g.Keys && forall n :: n in g ==> g[n] <= g.Keys
    ensures name in g && name !in rank && g[name] <= rank.Keys
  {
    var left := g.Keys - rank.Keys;
    var some :| some in g.Keys && some !in rank.Keys;
    assert some in left;
    HasMinimal(g, left);
    name :| name in left && g[name] !! left;
  }

  lemma RankNext(g: Graph, rank: map<string, nat>) returns (name: string)
    requires NoCycle(g) && rank.Keys < g.Keys && RankedSoFar(g, rank) && forall n :: n in g ==> g[n] <= g.Keys
    ensures name in g && name !in rank && RankedSoFar(g, rank[name := |rank|])
  {
    name := NextName(g, rank);
    RankOneMore(g, rank, name);
    OneMoreKey(rank, name, |rank|);
  }

  lemma {:induction false} RankRest(g: Graph, rank: map<string, nat>) returns (all: map<string, nat>)
    requires NoCycle(g) && RankedSoFar(g, rank) && forall name :: name in g ==> g[name] <= g.Keys
    ensures all.Keys == g.Keys && Ranked(g, all)
    decreases |g.Keys - rank.Keys|
  {
    if rank.Keys == g.Keys {
      all := rank;
    } else {
      var name := RankNext(g, rank);
      assert g.Keys - rank[name := |rank|].Keys == (g.Keys - rank.Keys) - {name};
      all := RankRest(g, rank[name := |rank|]);
    }
  }

  lemma RefsInPool(pool: Pool, known: Cycles, name: string)
    requires PoolSound(pool, known) && name in pool
    ensures Refs(pool, known, name) <= pool.Keys
  {
    assert TemplateSound(pool, known, name);
  }

  lemma RankedIsOk(pool: Pool, known: Cycles, rank: map<string, nat>, name: string)
    requires PoolSound(pool, known) && rank.Keys == pool.Keys && name in pool
    requires forall ref :: ref in Refs(pool, known, name) ==> ref in rank && rank[ref] < rank[name]
    ensures TemplateOk(pool, known, rank, name)
  {
    var t := pool[name];
    assert TemplateSound(pool, known, name);
    if t.isCollection {
      assert MemberType(name) in Refs(pool, known, name);
    } else {
      forall f | NavField(t, f)
        ensures IsCycle(known, name, f, t.props[f].target) || rank[t.props[f].target] < rank[name]
      {
        assert IsCycle(known, name, f, t.props[f].target) || t.props[f].target in Refs(pool, known, name);
      }
      forall o, c | NavChild(t, o, c)
        ensures IsCycle(known, name, c, t.props[o].fields[c].target) || rank[t.props[o].fields[c].target] < rank[name]
      {
        assert IsCycle(known, name, c, t.props[o].fields[c].target) ||
               t.props[o].fields[c].target in Refs(pool, known, name);
      }
      forall f | NavArray(t, f)
        ensures rank[t.props[f].elementType] < rank[name]
      {
        assert t.props[f].elementType in Refs(pool, known, name);
      }
    }
  }

  lemma HasRank(pool: Pool, known: Cycles) returns (rank: map<string, nat>)
    requires PoolSound(pool, known) && NoCycle(RefGraph(pool, known))
    ensures PoolOk(pool, known, rank)
  {
    var g := RefGraph(pool, known);
    forall name | name in g
      ensures g[name] <= g.Keys
    {
      RefsInPool(pool, known, name);
    }
    rank := RankRest(g, map[]);
    forall name {:trigger TemplateOk(pool, known, rank, name)} | name in pool
      ensures TemplateOk(pool, known, rank, name)
    {
      forall ref | ref in Refs(pool, known, name)
        ensures ref in rank && rank[ref] < rank[name]
      {
        assert ref in g[name];
      }
      RankedIsOk(pool, known, rank, name);
    }
  }

  // ---------- From a rank to no cycle ----------

  lemma OkIsRanked(pool: Pool, known: Cycles, rank: map<string, nat>, name: string, ref: string)
    requires PoolOk(pool, known, rank) && name in pool && ref in Refs(pool, known, name)
    ensures ref in rank && rank[ref] < rank[name]
  {
    assert TemplateOk(pool, known, rank, name);
  }

  lemma {:induction false} RankFalls(pool: Pool, known: Cycles, rank: map<string, nat>, path: seq<string>, n: nat)
    requires PoolOk(pool, known, rank) && IsWalk(RefGraph(pool, known), path) && 0 < n < |path|
    ensures path[0] in rank && path[n] in rank && rank[path[n]] < rank[path[0]]
  {
    assert Hop(RefGraph(pool, known), path, n - 1);
    OkIsRanked(pool, known, rank, path[n - 1], path[n]);
    if n > 1 {
      RankFalls(pool, known, rank, path, n - 1);
    }
  }

  /** A sound pool can be linked exactly when it has no cycle once the known ones are cut. */
  lemma LinkableExactly(pool: Pool, known: Cycles)
    requires PoolSound(pool, known)
    ensures NoCycle(RefGraph(pool, known)) <==> exists rank :: PoolOk(pool, known, rank)
  {
    if NoCycle(RefGraph(pool, known)) {
      var rank := HasRank(pool, known);
    }
    if rank :| PoolOk(pool, known, rank) {
      forall path {:trigger IsWalk(RefGraph(pool, known), path)} | IsWalk(RefGraph(pool, known), path) && |path| > 1
        ensures path[0] != path[|path| - 1]
      {
        RankFalls(pool, known, rank, path, |path| - 1);
      }
    }
  }
}
