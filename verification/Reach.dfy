/** Reachability in a finite directed graph given by successor sets. */
module Reach {

  type Digraph = map<nat, set<nat>>

  /** Every successor is a node. */
  ghost predicate Closed(g: Digraph) {
    forall a, b :: a in g && b in g[a] ==> b in g
  }

  ghost predicate IsPath(g: Digraph, p: seq<nat>) {
    |p| > 0 && p[0] in g && forall i :: 0 <= i < |p| - 1 ==> p[i] in g && p[i + 1] in g[p[i]]
  }

  ghost predicate Connects(g: Digraph, p: seq<nat>, a: nat, b: nat) {
    IsPath(g, p) && p[0] == a && p[|p| - 1] == b
  }

  /** `b` can be reached from `a` in zero or more steps. */
  ghost predicate Reaches(g: Digraph, a: nat, b: nat) {
    exists p :: Connects(g, p, a, b)
  }

  /** No node reaches itself in one or more steps. */
  ghost predicate Acyclic(g: Digraph) {
    forall a, b :: a in g && b in g[a] ==> !Reaches(g, b, a)
  }

  /** The nodes reachable from `a`. */
  ghost function Down(g: Digraph, a: nat): (r: set<nat>) {
    set b | b in g && Reaches(g, a, b)
  }

  lemma Refl(g: Digraph, a: nat)
    requires a in g
    ensures Reaches(g, a, a)
  {
    assert Connects(g, [a], a, a);
  }

  lemma Trans(g: Digraph, a: nat, b: nat, c: nat)
    requires Reaches(g, a, b) && Reaches(g, b, c)
    ensures Reaches(g, a, c)
  {
    var p :| Connects(g, p, a, b);
    var q :| Connects(g, q, b, c);
    assert Connects(g, p + q[1..], a, c);
  }

  lemma Step(g: Digraph, a: nat, b: nat)
    requires a in g && b in g[a]
    ensures Reaches(g, a, b)
  {
    assert Connects(g, [a, b], a, b);
  }

  /** A path of at least one step starts with an edge. */
  lemma FirstStep(g: Digraph, a: nat, b: nat) returns (m: nat)
    requires Closed(g) && Reaches(g, a, b) && a != b
    ensures a in g && m in g[a] && Reaches(g, m, b)
  {
    var p :| Connects(g, p, a, b);
    m := p[1];
    assert Connects(g, p[1..], m, b);
  }

  lemma DownStep(g: Digraph, a: nat, b: nat)
    requires Closed(g) && a in g && b in g[a]
    ensures b in Down(g, b) && b in Down(g, a) && Down(g, b) <= Down(g, a)
  {
    Refl(g, b);
    forall c | c in Down(g, b) ensures c in Down(g, a) {
      Step(g, a, b);
      Trans(g, a, b, c);
    }
    Step(g, a, b);
  }

  lemma DownTrans(g: Digraph, a: nat, b: nat)
    requires b in Down(g, a)
    ensures Down(g, b) <= Down(g, a)
  {
    forall c | c in Down(g, b) ensures c in Down(g, a) {
      Trans(g, a, b, c);
    }
  }

  /** In an acyclic graph the reachable set shrinks with every step. */
  lemma DownShrinks(g: Digraph, a: nat, b: nat)
    requires Closed(g) && Acyclic(g) && a in g && b in g[a]
    ensures Down(g, b) < Down(g, a) && a in Down(g, a) && a !in Down(g, b) && b in Down(g, b)
  {
    DownStep(g, a, b);
    Refl(g, a);
    assert a in Down(g, a) && a !in Down(g, b);
  }

  /** `r` comes from `g` by adding edges into `to`, each from a node that `to` does not
      reach, and by dropping edges. */
  ghost predicate Redirected(g: Digraph, r: Digraph, to: nat) {
    && r.Keys == g.Keys
    && forall a, b :: a in r && b in r[a] && b !in g[a] ==> b == to && !Reaches(g, to, a)
  }

  /** From `to`, the new graph leads nowhere that the old one did not. */
  lemma {:induction false} FromTarget(g: Digraph, r: Digraph, to: nat, p: seq<nat>)
    requires Redirected(g, r, to) && IsPath(r, p) && p[0] == to
    ensures Reaches(g, to, p[|p| - 1])
    decreases |p|
  {
    if |p| == 1 {
      Refl(g, to);
    } else {
      var q := p[..|p| - 1];
      assert IsPath(r, q);
      FromTarget(g, r, to, q);
      var a, b := q[|q| - 1], p[|p| - 1];
      assert a == p[|p| - 2] && b == p[|p| - 2 + 1] && b in r[a];
      Step(g, a, b);
      Trans(g, to, a, b);
    }
  }

  /** A path of the new graph either is one of the old graph or uses a new edge. */
  lemma {:induction false} OldOrNew(g: Digraph, r: Digraph, to: nat, p: seq<nat>) returns (i: int)
    requires Redirected(g, r, to) && IsPath(r, p)
    ensures i < 0 ==> IsPath(g, p)
    ensures i >= 0 ==> i + 1 < |p| && p[i + 1] == to && !Reaches(g, to, p[i])
  {
    if j :| 0 <= j < |p| - 1 && p[j + 1] !in g[p[j]] {
      i := j;
    } else {
      i := -1;
    }
  }

  /** Redirecting edges to a node is safe when none of them starts in its subtree. */
  lemma RedirectAcyclic(g: Digraph, r: Digraph, to: nat)
    requires Acyclic(g) && Redirected(g, r, to)
    ensures Acyclic(r)
  {
    forall a, b | a in r && b in r[a] ensures !Reaches(r, b, a) {
      forall p ensures !Connects(r, p, b, a) {
        NoCycle(g, r, to, a, b, p);
      }
    }
  }

  /** A cycle may be walked from any of its nodes. */
  lemma Turned(r: Digraph, cycle: seq<nat>, i: nat)
    requires IsPath(r, cycle) && i + 1 < |cycle| && cycle[|cycle| - 1] == cycle[0]
    ensures IsPath(r, cycle[i + 1..] + cycle[1..i + 1])
  {
    var back, front := cycle[i + 1..], cycle[1..i + 1];
    var round := back + front;
    forall k | 0 <= k < |round| - 1 ensures round[k] in r && round[k + 1] in r[round[k]] {
      if k + 1 < |back| {
        assert round[k] == cycle[i + 1 + k] && round[k + 1] == cycle[i + 1 + k + 1];
      } else if k + 1 == |back| {
        assert round[k] == cycle[0] && round[k + 1] == cycle[1] && cycle[1] in r[cycle[0]];
      } else {
        assert round[k] == cycle[1 + k - |back|] && round[k + 1] == cycle[1 + k - |back| + 1];
      }
    }
    if i + 2 < |cycle| {
      assert cycle[i + 1] in r;
    }
  }

  lemma NoCycle(g: Digraph, r: Digraph, to: nat, a: nat, b: nat, p: seq<nat>)
    requires Acyclic(g) && Redirected(g, r, to) && a in r && b in r[a]
    ensures !Connects(r, p, b, a)
  {
    if Connects(r, p, b, a) {
      var cycle := [a] + p;
      assert IsPath(r, cycle);
      var i := OldOrNew(g, r, to, cycle);
      if i < 0 {
        assert cycle[1] == b && b in g[a];
        assert Connects(g, cycle[1..], b, a);
      } else {
        var round := cycle[i + 1..] + cycle[1..i + 1];
        Turned(r, cycle, i);
        FromTarget(g, r, to, round);
      }
    }
  }

  lemma {:induction false} PathAgrees(g: Digraph, r: Digraph, a: nat, p: seq<nat>)
    requires r.Keys == g.Keys && forall k :: k in Down(g, a) ==> r[k] == g[k]
    requires IsPath(r, p) && p[0] == a && Closed(g)
    ensures Reaches(g, a, p[|p| - 1]) && p[|p| - 1] in g
    decreases |p|
  {
    if |p| == 1 {
      Refl(g, a);
    } else {
      var q := p[..|p| - 1];
      assert IsPath(r, q);
      PathAgrees(g, r, a, q);
      var b, c := q[|q| - 1], p[|p| - 1];
      assert b == p[|p| - 2] && c == p[|p| - 2 + 1] && c in r[b] && b in Down(g, a);
      Step(g, b, c);
      Trans(g, a, b, c);
    }
  }

  lemma {:induction false} PathKept(g: Digraph, r: Digraph, a: nat, p: seq<nat>)
    requires r.Keys == g.Keys && forall k :: k in Down(g, a) ==> r[k] == g[k]
    requires IsPath(g, p) && p[0] == a && Closed(g)
    ensures Reaches(g, a, p[|p| - 1]) && Reaches(r, a, p[|p| - 1]) && p[|p| - 1] in g
    decreases |p|
  {
    if |p| == 1 {
      Refl(g, a);
      Refl(r, a);
    } else {
      var q := p[..|p| - 1];
      assert IsPath(g, q);
      PathKept(g, r, a, q);
      var b, c := q[|q| - 1], p[|p| - 1];
      assert b == p[|p| - 2] && c == p[|p| - 2 + 1] && c in g[b] && b in Down(g, a);
      Step(g, b, c);
      Trans(g, a, b, c);
      Step(r, b, c);
      Trans(r, a, b, c);
    }
  }

  /** Two graphs that agree on everything reachable from `a` have the same reachable set. */
  lemma DownAgrees(g: Digraph, r: Digraph, a: nat)
    requires Closed(g) && r.Keys == g.Keys && forall k :: k in Down(g, a) ==> r[k] == g[k]
    ensures Down(r, a) == Down(g, a)
  {
    forall b | b in Down(r, a) ensures b in Down(g, a) {
      var p :| Connects(r, p, a, b);
      PathAgrees(g, r, a, p);
    }
    forall b | b in Down(g, a) ensures b in Down(r, a) {
      var p :| Connects(g, p, a, b);
      PathKept(g, r, a, p);
    }
  }
}
