/** The block graph (block.c): nodes (`BlockDriverState`) joined by edges (`BdrvChild`).
    An edge hangs in the `parents` list of the node it points to, and in the `children`
    list of the node that owns it, if a node owns it. */
module BlockGraph {
  import opened Lists
  import opened Reach

  type NodeId = nat
  type EdgeId = nat

  datatype Option<T> = None | Some(value: T)

  /** `BdrvChildRole`, without the combinations that `bdrv_default_perms` asserts away. */
  datatype Role = Filtered | Cow | Metadata | Data | MetadataAndData

  /** How a driver takes part in permission updates: not at all because the node is being
      closed; with a `bdrv_check_perm` of its own and no children; with neither that nor
      children; through `bdrv_default_perms`. */
  datatype Driver = NoDriver | OwnCheck | Childless | DefaultPerms

  datatype Node = Node(children: seq<EdgeId>, parents: seq<EdgeId>, drv: Driver,
                       writable: bool, inactive: bool, noIo: bool, sizeAligned: bool, forceShare: bool)

  datatype Edge = Edge(bs: NodeId, role: Role, frozen: bool, stayAtNode: bool)

  datatype Graph = Graph(nodes: map<NodeId, Node>, edges: map<EdgeId, Edge>)

  function Elems(s: seq<EdgeId>): (r: set<EdgeId>) {
    set e | e in s
  }

  /** The two lists of a node. */
  ghost predicate NodeOk(g: Graph, n: NodeId)
    requires n in g.nodes
  {
    && NoDups(g.nodes[n].children)
    && NoDups(g.nodes[n].parents)
    && (forall e :: e in g.nodes[n].children ==> e in g.edges)
    && (forall e :: e in g.nodes[n].parents <==> e in g.edges && g.edges[e].bs == n)
    && (g.nodes[n].drv.DefaultPerms? || g.nodes[n].drv.NoDriver? || g.nodes[n].children == [])
  }

  ghost predicate EdgeOk(g: Graph, e: EdgeId)
    requires e in g.edges
  {
    g.edges[e].bs in g.nodes
  }

  ghost predicate OneOwner(g: Graph, n: NodeId, m: NodeId, e: EdgeId)
    requires n in g.nodes && m in g.nodes
  {
    e in g.nodes[n].children && e in g.nodes[m].children ==> n == m
  }

  ghost predicate WellFormed(g: Graph) {
    && (forall n {:trigger NodeOk(g, n)} :: n in g.nodes ==> NodeOk(g, n))
    && (forall e {:trigger EdgeOk(g, e)} :: e in g.edges ==> EdgeOk(g, e))
    && (forall n, m, e {:trigger OneOwner(g, n, m, e)} :: n in g.nodes && m in g.nodes ==> OneOwner(g, n, m, e))
  }

  ghost function Targets(g: Graph, es: seq<EdgeId>): (r: set<NodeId>) {
    set e | e in es && e in g.edges :: g.edges[e].bs
  }

  /** Who points to whom. */
  ghost function Links(g: Graph): (r: Reach.Digraph) {
    map n | n in g.nodes :: Targets(g, g.nodes[n].children)
  }

  /** The graph invariant: the lists agree with each other and there is no loop. */
  ghost predicate Ok(g: Graph) {
    WellFormed(g) && Acyclic(Links(g))
  }

  lemma LinksClosed(g: Graph)
    requires WellFormed(g)
    ensures Closed(Links(g))
  {
    forall a, b | a in Links(g) && b in Links(g)[a] ensures b in Links(g) {
      var e :| e in g.nodes[a].children && e in g.edges && g.edges[e].bs == b;
      assert EdgeOk(g, e);
    }
  }

  /** The edges that a permission update follows out of a node. */
  function Kids(g: Graph, n: NodeId): (r: seq<EdgeId>) {
    if n !in g.nodes || g.nodes[n].drv.NoDriver? then [] else g.nodes[n].children
  }

  ghost function Live(g: Graph): (r: Reach.Digraph) {
    map n | n in g.nodes :: Targets(g, Kids(g, n))
  }

  /** The nodes that a permission update of `n` visits. */
  ghost function Below(g: Graph, n: NodeId): (r: set<NodeId>) {
    Down(Live(g), n)
  }

  lemma LivePath(g: Graph, p: seq<nat>)
    requires IsPath(Live(g), p)
    ensures IsPath(Links(g), p)
  {}

  lemma LiveReaches(g: Graph, a: NodeId, b: NodeId)
    requires Reaches(Live(g), a, b)
    ensures Reaches(Links(g), a, b)
  {
    var p :| Connects(Live(g), p, a, b);
    LivePath(g, p);
    assert Connects(Links(g), p, a, b);
  }

  lemma LiveOk(g: Graph)
    requires Ok(g)
    ensures Closed(Live(g)) && Acyclic(Live(g))
  {
    forall a, b | a in Live(g) && b in Live(g)[a] ensures b in Live(g) {
      var e :| e in Kids(g, a) && e in g.edges && g.edges[e].bs == b;
      assert EdgeOk(g, e);
    }
    forall a, b | a in Live(g) && b in Live(g)[a] ensures !Reaches(Live(g), b, a) {
      assert b in Links(g)[a];
      if Reaches(Live(g), b, a) {
        LiveReaches(g, b, a);
      }
    }
  }

  /** The termination argument of every recursive permission function: the child has
      strictly less below it than its parent. */
  lemma KidBelow(g: Graph, n: NodeId, c: EdgeId)
    requires Ok(g) && n in g.nodes && c in Kids(g, n)
    ensures c in g.edges && g.edges[c].bs in g.nodes
    ensures Below(g, g.edges[c].bs) < Below(g, n)
    ensures n in Below(g, n) && n !in Below(g, g.edges[c].bs) && g.edges[c].bs in Below(g, g.edges[c].bs)
  {
    assert NodeOk(g, n) && EdgeOk(g, c);
    LiveOk(g);
    DownShrinks(Live(g), n, g.edges[c].bs);
  }
}
