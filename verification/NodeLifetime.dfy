/** How long a node lives (lib/fuse.c, with the option `remember` at 0). A node is kept by the
    kernel's lookups, by its named children and by requests that pin it; its reference count is
    the sum, and dropping the last reference removes the node and the ancestors that it alone
    kept alive. */
module NodeLifetime {
  import opened Lists
  import opened Wrappers
  import opened NodeTree

  const FUSE_UNKNOWN_INO: nat := 0xffff_ffff
  const WORD: nat := 0x1_0000_0000

  datatype Node = Node(parent: Option<nat>, name: Option<string>, refctr: int, nlookup: nat, generation: nat)

  /** The nodes in the id table. */
  type Nodes = map<nat, Node>

  function Links(nodes: Nodes): Tree {
    map n | n in nodes :: Link(nodes[n].parent, nodes[n].name)
  }

  // ---------- the count ----------

  /** The named children of a node: its entries in the name table. */
  function Kids(index: Index, n: nat): set<(nat, string)> {
    set key | key in index && key.0 == n
  }

  /** What `refctr` has to be: one for all lookups together, one for each named child, and the
      references that running requests hold. */
  function Count(nodes: Nodes, index: Index, pins: multiset<nat>, n: nat): int
    requires n in nodes
  {
    (if nodes[n].nlookup > 0 then 1 else 0) + |Kids(index, n)| + pins[n]
  }

  /** Every node in the table has the right count, and it is positive, except for those that are
      just being deleted. */
  ghost predicate Counted(nodes: Nodes, index: Index, pins: multiset<nat>, dying: set<nat>) {
    (forall n | n in nodes :: nodes[n].refctr == Count(nodes, index, pins, n)) &&
    (forall n | n in nodes && n !in dying :: nodes[n].refctr > 0) &&
    (forall n | n in dying :: n in nodes && n != ROOT && nodes[n].refctr == 0) &&
    (forall n | n in nodes && n != ROOT :: nodes[n].name.Some? <==> nodes[n].parent.Some?) &&
    (forall n | n in pins :: n in nodes)
  }

  ghost predicate Alive(nodes: Nodes, index: Index, pins: multiset<nat>, dying: set<nat>) {
    Named(Links(nodes), index) && Counted(nodes, index, pins, dying) && ROOT in nodes && nodes[ROOT].nlookup > 0
  }

  /** What dropping a reference to `n` does: `run` is the run of nodes that it deletes. */
  ghost predicate Reaps(nodes: Nodes, index: Index, n: nat, run: seq<nat>, nodes': Nodes, index': Index)
    decreases |run|
  {
    n in nodes &&
    if nodes[n].refctr > 1 then
      run == [] && nodes' == nodes[n := nodes[n].(refctr := nodes[n].refctr - 1)] && index' == index
    else
      run != [] && run[0] == n &&
      if nodes[n].parent == None then
        run == [n] && nodes' == nodes - {n} && index' == index
      else
        Reaps(nodes - {n}, index - {KeyOf(Links(nodes), n)}, nodes[n].parent.value, run[1..], nodes', index')
  }

  function Nameless(nodes: Nodes, n: nat): Nodes
    requires n in nodes
  {
    nodes[n := nodes[n].(parent := None, name := None)]
  }

  /** The same for a node whose count is already 0. */
  ghost predicate Deleted(nodes: Nodes, index: Index, n: nat, run: seq<nat>, nodes': Nodes, index': Index) {
    n in nodes && run != [] && run[0] == n &&
    if nodes[n].parent == None then run == [n] && nodes' == nodes - {n} && index' == index
    else Reaps(nodes - {n}, index - {KeyOf(Links(nodes), n)}, nodes[n].parent.value, run[1..], nodes', index')
  }

  // ---------- counting children ----------

  lemma KidsRemove(index: Index, key: (nat, string), n: nat)
    requires key in index
    ensures |Kids(index - {key}, n)| == |Kids(index, n)| - if key.0 == n then 1 else 0
  {
    assert Kids(index - {key}, n) == Kids(index, n) - {key};
  }

  lemma KidsAdd(index: Index, key: (nat, string), m: nat, n: nat)
    requires key !in index
    ensures |Kids(index[key := m], n)| == |Kids(index, n)| + if key.0 == n then 1 else 0
  {
    assert Kids(index[key := m], n) == if key.0 == n then Kids(index, n) + {key} else Kids(index, n);
  }

  /** A node with a child has an entry for it. */
  lemma HasKid(nodes: Nodes, index: Index, m: nat)
    requires Named(Links(nodes), index) && m in nodes && nodes[m].parent.Some?
    ensures KeyOf(Links(nodes), m) in index && |Kids(index, nodes[m].parent.value)| > 0
    ensures nodes[m].parent.value in nodes && index[KeyOf(Links(nodes), m)] == m
  {
    var key := KeyOf(Links(nodes), m);
    assert Links(nodes)[m].parent.Some?;
    assert key in Kids(index, nodes[m].parent.value);
  }

  // ---------- the steps on values ----------

  function B(b: bool): int {
    if b then 1 else 0
  }

  /** One node changes its numbers; its name and everything else stay. */
  lemma ChangeOne(nodes: Nodes, index: Index, pins: multiset<nat>, dying: set<nat>, n: nat, refctr: int, nlookup: nat,
                  pins': multiset<nat>, dying': set<nat>)
    requires Alive(nodes, index, pins, dying) && n in nodes && (n == ROOT ==> nlookup > 0 && refctr > 0)
    requires refctr - nodes[n].refctr == B(nlookup > 0) - B(nodes[n].nlookup > 0) + pins'[n] - pins[n]
    requires forall m | m != n :: pins'[m] == pins[m] && (m in dying <==> m in dying')
    requires if n in dying' then refctr == 0 else refctr > 0
    ensures Alive(nodes[n := nodes[n].(refctr := refctr, nlookup := nlookup)], index, pins', dying')
  {
    var nodes' := nodes[n := nodes[n].(refctr := refctr, nlookup := nlookup)];
    assert Links(nodes') == Links(nodes);
    hide Named, Links, Counted;
    ChangeCounts(nodes, index, pins, dying, n, refctr, nlookup, pins', dying');
  }

  lemma ChangeCounts(nodes: Nodes, index: Index, pins: multiset<nat>, dying: set<nat>, n: nat, refctr: int,
                     nlookup: nat, pins': multiset<nat>, dying': set<nat>)
    requires Counted(nodes, index, pins, dying) && n in nodes && (n == ROOT ==> refctr > 0)
    requires refctr - nodes[n].refctr == B(nlookup > 0) - B(nodes[n].nlookup > 0) + pins'[n] - pins[n]
    requires forall m | m != n :: pins'[m] == pins[m] && (m in dying <==> m in dying')
    requires if n in dying' then refctr == 0 else refctr > 0
    ensures Counted(nodes[n := nodes[n].(refctr := refctr, nlookup := nlookup)], index, pins', dying')
  {
    var nodes' := nodes[n := nodes[n].(refctr := refctr, nlookup := nlookup)];
    hide Kids;
    forall m | m in nodes' ensures nodes'[m].refctr == Count(nodes', index, pins', m) {
      assert nodes[m].refctr == Count(nodes, index, pins, m);
    }
    forall m | m in pins' ensures m in nodes' {
      assert m != n ==> m in pins;
    }
    forall m | m in dying' ensures m in nodes' && m != ROOT && nodes'[m].refctr == 0 {
      assert m != n ==> m in dying;
    }
  }

  /** Dropping a pin: the count goes down by one. */
  lemma DropPin(nodes: Nodes, index: Index, pins: multiset<nat>, dying: set<nat>, n: nat)
    requires Alive(nodes, index, pins, dying) && n in pins && n in nodes
    ensures nodes[n].refctr > 0 && n !in dying && (n == ROOT ==> nodes[n].refctr > 1)
    ensures var nodes' := nodes[n := nodes[n].(refctr := nodes[n].refctr - 1)];
            Alive(nodes', index, pins - multiset{n}, if nodes[n].refctr == 1 then dying + {n} else dying)
  {
    assert nodes[n].refctr == Count(nodes, index, pins, n);
    hide Alive;
    ChangeOne(nodes, index, pins, dying, n, nodes[n].refctr - 1, nodes[n].nlookup, pins - multiset{n},
              if nodes[n].refctr == 1 then dying + {n} else dying);
  }

  /** Unhashing the name of a node turns the child's reference to the parent into a pin. */
  lemma Unname(nodes: Nodes, index: Index, pins: multiset<nat>, dying: set<nat>, n: nat)
    requires Alive(nodes, index, pins, dying) && n in nodes && nodes[n].parent.Some?
    ensures var nodes' := Nameless(nodes, n);
            var index' := index - {KeyOf(Links(nodes), n)};
      && Links(nodes') == Unlinked(Links(nodes), n)
      && Alive(nodes', index', pins + multiset{nodes[n].parent.value}, dying) && |index'| < |index|
      && nodes[n].parent.value in nodes'
  {
    HasKid(nodes, index, n);
    NamelessLinks(nodes, n);
    assert n != ROOT;
    hide Named, Links, Counted;
    UnlinkNamed(Links(nodes), index, n);
    UnnameCounts(nodes, index, pins, dying, n, KeyOf(Links(nodes), n));
    hide KeyOf;
    LessNames(index, KeyOf(Links(nodes), n));
  }

  lemma LessNames(index: Index, key: (nat, string))
    requires key in index
    ensures |index - {key}| < |index|
  {
    assert index.Keys == (index - {key}).Keys + {key};
  }

  lemma NamelessLinks(nodes: Nodes, n: nat)
    requires n in nodes
    ensures Links(Nameless(nodes, n)) == Unlinked(Links(nodes), n)
    ensures n in Links(nodes) && Links(nodes)[n].parent == nodes[n].parent
    ensures nodes[n].parent.Some? ==> KeyOf(Links(nodes), n).0 == nodes[n].parent.value
  {
  }

  lemma UnnameCounts(nodes: Nodes, index: Index, pins: multiset<nat>, dying: set<nat>, n: nat, key: (nat, string))
    requires Counted(nodes, index, pins, dying) && n in nodes && key in index && key.0 in nodes && n != ROOT
    ensures Counted(Nameless(nodes, n), index - {key}, pins + multiset{key.0}, dying)
  {
    var nodes' := Nameless(nodes, n);
    hide Kids;
    forall m | m in nodes'
      ensures nodes'[m].refctr == Count(nodes', index - {key}, pins + multiset{key.0}, m)
    {
      KidsRemove(index, key, m);
      assert nodes[m].refctr == Count(nodes, index, pins, m);
    }
  }

  /** A node that is being deleted and has lost its name leaves the table. */
  lemma Bury(nodes: Nodes, index: Index, pins: multiset<nat>, dying: set<nat>, n: nat)
    requires Alive(nodes, index, pins, dying) && n in dying && nodes[n].parent == None
    ensures Alive(nodes - {n}, index, pins, dying - {n})
    ensures forall m | m in nodes :: nodes[m].parent != Some(n)
  {
    forall m | m in nodes ensures nodes[m].parent != Some(n) {
      if nodes[m].parent == Some(n) {
        HasKid(nodes, index, m);
      }
    }
    assert Links(nodes - {n}) == Links(nodes) - {n};
    assert forall m | m in Links(nodes) :: Links(nodes)[m].parent == nodes[m].parent;
    hide Named;
    DeleteNamed(Links(nodes), index, n);
    hide Links, Counted;
    BuryCounts(nodes, index, pins, dying, n);
  }

  lemma BuryCounts(nodes: Nodes, index: Index, pins: multiset<nat>, dying: set<nat>, n: nat)
    requires Counted(nodes, index, pins, dying) && n in dying
    ensures Counted(nodes - {n}, index, pins, dying - {n})
  {
    hide Kids;
    assert nodes[n].refctr == Count(nodes, index, pins, n);
    forall m | m in nodes - {n} ensures (nodes - {n})[m].refctr == Count(nodes - {n}, index, pins, m) {
      assert nodes[m].refctr == Count(nodes, index, pins, m);
    }
  }

  /** Reaping from `p` stays on the climb of `p`. */
  lemma {:induction false} ReapsKeeps(nodes: Nodes, index: Index, p: nat, run: seq<nat>, nodes': Nodes, index': Index,
                                      c: seq<nat>, x: nat)
    requires Reaps(nodes, index, p, run, nodes', index') && Climb(Links(nodes), p, c) && x !in c && x in nodes
    ensures x in nodes' && nodes'[x] == nodes[x]
    ensures Reaps(nodes - {x}, index, p, run, nodes' - {x}, index')
    decreases |run|
  {
    var less := nodes - {x};
    if nodes[p].refctr > 1 {
      assert nodes' - {x} == less[p := nodes[p].(refctr := nodes[p].refctr - 1)];
    } else if nodes[p].parent == None {
      assert nodes' - {x} == less - {p};
    } else {
      ClimbWithoutBottom(nodes, p, c);
      ReapsKeeps(nodes - {p}, index - {KeyOf(Links(nodes), p)}, nodes[p].parent.value, run[1..], nodes', index',
                 c[1..], x);
      assert (nodes - {p}) - {x} == less - {p};
      assert KeyOf(Links(nodes), p) == KeyOf(Links(less), p);
    }
  }

  /** The rest of a climb does not need its bottom. */
  lemma ClimbWithoutBottom(nodes: Nodes, p: nat, c: seq<nat>)
    requires Climb(Links(nodes), p, c) && nodes[p].parent.Some?
    ensures Climb(Links(nodes - {p}), nodes[p].parent.value, c[1..])
  {
    var t := Links(nodes);
    ClimbSuffix(t, p, c, 1);
    forall i | 1 <= i < |c| ensures c[i] != p {
      ClimbDistinct(t, p, c, 0, i);
    }
    ClimbAvoids(t, Links(nodes - {p}), p, c[1], c[1..]);
  }

  lemma HasName(nodes: Nodes, index: Index, pins: multiset<nat>, dying: set<nat>, n: nat)
    requires Alive(nodes, index, pins, dying) && n in nodes && n != ROOT
    ensures nodes[n].name.Some? <==> nodes[n].parent.Some?
  {
  }

  lemma DyingNode(nodes: Nodes, index: Index, pins: multiset<nat>, dying: set<nat>, n: nat)
    requires Alive(nodes, index, pins, dying + {n}) && n in nodes
    ensures n != ROOT && n in dying + {n} && Named(Links(nodes), index)
  {
  }

  /** The climb of the parent does not need the child's name. */
  lemma ParentClimb(nodes: Nodes, index: Index, n: nat) returns (c: seq<nat>)
    requires Named(Links(nodes), index) && n in nodes && nodes[n].parent.Some?
    ensures Climb(Links(Nameless(nodes, n)), nodes[n].parent.value, c) && n !in c
  {
    var t := Links(nodes);
    assert n in t && t[n].parent == nodes[n].parent;
    c :| Climb(t, n, c);
    assert Climb(t, nodes[n].parent.value, c[1..]);
    ClimbSuffix(t, n, c, 1);
    forall i | 1 <= i < |c| ensures c[i] != n {
      ClimbDistinct(t, n, c, 0, i);
    }
    ClimbAvoids(t, Links(Nameless(nodes, n)), n, c[1], c[1..]);
    c := c[1..];
  }

  /** What `unhash_name` does to the table: nothing to a nameless node; otherwise the node loses
      its name and the parent a reference. */
  ghost predicate Unhashed(nodes: Nodes, index: Index, n: nat, up: seq<nat>, nodes': Nodes, index': Index) {
    n in nodes &&
    if nodes[n].parent == None then up == [] && nodes' == nodes && index' == index
    else Reaps(Nameless(nodes, n), index - {KeyOf(Links(nodes), n)}, nodes[n].parent.value, up, nodes', index')
  }

  /** Unhashing the name of a node keeps the node, whatever happens to its ancestors. */
  lemma UnhashedKeeps(nodes: Nodes, index: Index, n: nat, up: seq<nat>, nodes': Nodes, index': Index)
    requires Named(Links(nodes), index) && Unhashed(nodes, index, n, up, nodes', index')
    ensures n in nodes' && nodes'[n] == if nodes[n].parent == None then nodes[n] else Nameless(nodes, n)[n]
    ensures Deleted(nodes, index, n, [n] + up, nodes' - {n}, index')
  {
    assert ([n] + up)[1..] == up;
    if nodes[n].parent.Some? {
      var c := ParentClimb(nodes, index, n);
      ReapsKeeps(Nameless(nodes, n), index - {KeyOf(Links(nodes), n)}, nodes[n].parent.value, up, nodes', index', c, n);
      assert Nameless(nodes, n) - {n} == nodes - {n};
    }
  }

  /** Dropping the last reference is deleting the node with its count at 0. */
  lemma ReapsByDeletion(nodes: Nodes, index: Index, n: nat, run: seq<nat>, nodes': Nodes, index': Index)
    requires n in nodes && nodes[n].refctr == 1
    requires Deleted(nodes[n := nodes[n].(refctr := 0)], index, n, run, nodes', index')
    ensures Reaps(nodes, index, n, run, nodes', index')
  {
    assert nodes[n := nodes[n].(refctr := 0)] - {n} == nodes - {n};
  }

  /** Dropping the last reference to a node deletes exactly the node and the run of ancestors
      that this leaves without a reference; the next ancestor loses one reference and nothing
      else changes. */
  lemma {:induction false} ReapsExactly(nodes: Nodes, index: Index, n: nat, run: seq<nat>, nodes': Nodes,
                                        index': Index, c: seq<nat>)
    requires Reaps(nodes, index, n, run, nodes', index') && Climb(Links(nodes), n, c)
    ensures |run| <= |c| && run == c[..|run|] && c != [] && c[0] == n
    ensures forall i | 0 <= i < |run| :: run[i] in nodes && nodes[run[i]].refctr <= 1
    ensures |run| < |c| ==> c[|run|] in nodes && nodes[c[|run|]].refctr > 1
    ensures nodes' == Survivors(nodes, run, if |run| < |c| then Some(c[|run|]) else None)
    decreases |run|
  {
    if nodes[n].refctr > 1 {
      assert nodes' == Survivors(nodes, run, Some(n));
    } else if nodes[n].parent == None {
      assert run == [n] && c == [n];
      assert nodes' == Survivors(nodes, run, None);
    } else {
      var less, up := nodes - {n}, run[1..];
      ClimbWithoutBottom(nodes, n, c);
      ReapsExactly(less, index - {KeyOf(Links(nodes), n)}, nodes[n].parent.value, up, nodes', index', c[1..]);
      var next := if |run| < |c| then Some(c[|run|]) else None;
      assert run == [n] + up;
      assert Survivors(less, up, next) == Survivors(nodes, run, next);
    }
  }

  /** All nodes but those of the run, with one reference less for `next`. */
  function Survivors(nodes: Nodes, run: seq<nat>, next: Option<nat>): Nodes {
    map m | m in nodes && m !in run ::
      if next == Some(m) then nodes[m].(refctr := nodes[m].refctr - 1) else nodes[m]
  }

  /** The names of the nodes of a run */
  ghost function RunNames(nodes: Nodes, run: seq<nat>): set<(nat, string)> {
    set m | m in run && m in nodes && nodes[m].parent.Some? :: KeyOf(Links(nodes), m)
  }

  lemma NamesSplit(nodes: Nodes, n: nat, up: seq<nat>)
    requires n in nodes && nodes[n].parent.Some? && n !in up
    ensures RunNames(nodes, [n] + up) == {KeyOf(Links(nodes), n)} + RunNames(nodes - {n}, up)
  {
    var less := nodes - {n};
    forall m | m in less ensures KeyOf(Links(less), m) == KeyOf(Links(nodes), m) {
    }
    hide KeyOf, Links;
    assert forall m :: m in [n] + up <==> m == n || m in up;
  }

  /** The deleted nodes lose their names, and no other name goes. */
  lemma {:induction false} ReapsNames(nodes: Nodes, index: Index, n: nat, run: seq<nat>, nodes': Nodes,
                                      index': Index, c: seq<nat>)
    requires Reaps(nodes, index, n, run, nodes', index') && Climb(Links(nodes), n, c)
    ensures index' == index - RunNames(nodes, run)
    decreases |run|
  {
    if nodes[n].refctr <= 1 && nodes[n].parent.Some? {
      var less, up, key := nodes - {n}, run[1..], KeyOf(Links(nodes), n);
      assert Reaps(less, index - {key}, nodes[n].parent.value, up, nodes', index') && run == [n] + up;
      hide Reaps;
      ClimbWithoutBottom(nodes, n, c);
      hide Climb, KeyOf, Links;
      ReapsNames(less, index - {key}, nodes[n].parent.value, up, nodes', index', c[1..]);
      ReapsExactly(less, index - {key}, nodes[n].parent.value, up, nodes', index', c[1..]);
      hide RunNames;
      NamesSplit(nodes, n, up);
    }
  }

  /** A cascade leaves all counts right. */
  lemma {:induction false} ReapsAlive(nodes: Nodes, index: Index, pins: multiset<nat>, n: nat, run: seq<nat>,
                                      nodes': Nodes, index': Index)
    requires Alive(nodes, index, pins, {}) && n in pins && Reaps(nodes, index, n, run, nodes', index')
    ensures Alive(nodes', index', pins - multiset{n}, {})
    decreases |run|
  {
    hide Alive;
    ReapsFirst(nodes, index, n, run, nodes', index');
    DropPin(nodes, index, pins, {}, n);
    if nodes[n].refctr == 1 {
      var dropped, left := nodes[n := nodes[n].(refctr := 0)], pins - multiset{n};
      assert {} + {n} - {n} == {};
      assert dropped - {n} == nodes - {n};
      if nodes[n].parent == None {
        Bury(dropped, index, left, {} + {n}, n);
      } else {
        var p, key := nodes[n].parent.value, KeyOf(Links(nodes), n);
        assert KeyOf(Links(dropped), n) == key;
        Unname(dropped, index, left, {} + {n}, n);
        Bury(Nameless(dropped, n), index - {key}, left + multiset{p}, {} + {n}, n);
        assert Nameless(dropped, n) - {n} == nodes - {n};
        ReapsAlive(nodes - {n}, index - {key}, left + multiset{p}, p, run[1..], nodes', index');
        assert left + multiset{p} - multiset{p} == left;
      }
    }
  }

  lemma UnhashedAlive(nodes: Nodes, index: Index, pins: multiset<nat>, n: nat, up: seq<nat>, nodes': Nodes,
                      index': Index)
    requires Alive(nodes, index, pins, {}) && Unhashed(nodes, index, n, up, nodes', index')
    ensures Alive(nodes', index', pins, {})
  {
    hide Alive, Reaps;
    if nodes[n].parent.Some? {
      var p := nodes[n].parent.value;
      Unname(nodes, index, pins, {}, n);
      ReapsAlive(Nameless(nodes, n), index - {KeyOf(Links(nodes), n)}, pins + multiset{p}, p, up, nodes', index');
      assert pins + multiset{p} - multiset{p} == pins;
    }
  }

  // ---------- lookups, names and pins ----------

  datatype Error = Success | Busy | NoMemory

  /** No node is new, and lookups and generations are as before. */
  ghost predicate SameLookups(nodes: Nodes, nodes': Nodes) {
    forall m | m in nodes' ::
        m in nodes && nodes'[m].nlookup == nodes[m].nlookup && nodes'[m].generation == nodes[m].generation
  }

  /** Nodes with lookups live on with the same lookups, and other names stay unless their node is
      deleted. */
  ghost predicate OthersKept(nodes: Nodes, index: Index, nodes': Nodes, index': Index, keys: set<(nat, string)>) {
    SameLookups(nodes, nodes') &&
    (forall m | m in nodes && nodes[m].nlookup > 0 :: m in nodes') &&
    (forall key | key in index' && key !in keys :: key in index && index'[key] == index[key]) &&
    forall key | key in index && key !in index' && key !in keys :: index[key] !in nodes'
  }

  const INLINE_NAME: nat := 32

  function Looked(nodes: Nodes, n: nat): Nodes
    requires n in nodes
  {
    var node := nodes[n];
    nodes[n := node.(refctr := if node.nlookup == 0 then node.refctr + 1 else node.refctr, nlookup := node.nlookup + 1)]
  }

  function Forgotten(nodes: Nodes, n: nat, k: nat): Nodes
    requires n in nodes && k <= nodes[n].nlookup
  {
    nodes[n := nodes[n].(nlookup := nodes[n].nlookup - k)]
  }

  function Hashed(nodes: Nodes, n: nat, dir: nat, name: string): Nodes
    requires n in nodes && dir in nodes && n != dir
  {
    nodes[n := nodes[n].(parent := Some(dir), name := Some(name))][dir := nodes[dir].(refctr := nodes[dir].refctr + 1)]
  }

  function Found(nodes: Nodes, id: nat, dir: nat, name: string, generation: nat): Nodes
    requires dir in nodes && id !in nodes
  {
    nodes[dir := nodes[dir].(refctr := nodes[dir].refctr + 1)][id := Node(Some(dir), Some(name), 1, 1, generation)]
  }

  /** A new node is linked into its directory and looked up once. */
  lemma FoundSteps(nodes: Nodes, id: nat, dir: nat, name: string, generation: nat)
    requires dir in nodes && id !in nodes
    ensures var linked := nodes[dir := nodes[dir].(refctr := nodes[dir].refctr + 1)]
                               [id := Node(Some(dir), Some(name), 0, 0, generation)];
      Looked(linked, id) == Found(nodes, id, dir, name, generation)
    ensures id in Found(nodes, id, dir, name, generation)
    ensures Found(nodes, id, dir, name, generation)[id].generation == generation
  {
  }

  lemma LookedAlive(nodes: Nodes, index: Index, pins: multiset<nat>, n: nat)
    requires Alive(nodes, index, pins, {}) && n in nodes
    ensures Alive(Looked(nodes, n), index, pins, {})
  {
    assert nodes[n].refctr > 0;
    hide Alive;
    ChangeOne(nodes, index, pins, {}, n, nodes[n].refctr + B(nodes[n].nlookup == 0), nodes[n].nlookup + 1, pins, {});
  }

  lemma PinnedAlive(nodes: Nodes, index: Index, pins: multiset<nat>, n: nat)
    requires Alive(nodes, index, pins, {}) && n in nodes
    ensures Alive(nodes[n := nodes[n].(refctr := nodes[n].refctr + 1)], index, pins + multiset{n}, {})
  {
    assert nodes[n].refctr > 0;
    hide Alive;
    ChangeOne(nodes, index, pins, {}, n, nodes[n].refctr + 1, nodes[n].nlookup, pins + multiset{n}, {});
  }

  /** Giving back the last lookup leaves one reference to drop. */
  lemma ForgottenAlive(nodes: Nodes, index: Index, pins: multiset<nat>, n: nat, k: nat)
    requires Alive(nodes, index, pins, {}) && n in nodes && n != ROOT && 0 < nodes[n].nlookup && k <= nodes[n].nlookup
    ensures Alive(Forgotten(nodes, n, k), index, if k == nodes[n].nlookup then pins + multiset{n} else pins, {})
  {
    assert nodes[n].refctr > 0;
    hide Alive;
    ChangeOne(nodes, index, pins, {}, n, nodes[n].refctr, nodes[n].nlookup - k,
              if k == nodes[n].nlookup then pins + multiset{n} else pins, {});
  }

  lemma AliveRoot(nodes: Nodes, index: Index, pins: multiset<nat>)
    requires Alive(nodes, index, pins, {})
    ensures ROOT in nodes
  {
  }

  lemma AliveIndex(nodes: Nodes, index: Index, pins: multiset<nat>, key: (nat, string))
    requires Alive(nodes, index, pins, {}) && key in index
    ensures index[key] in nodes && index[key] != ROOT && KeyOf(Links(nodes), index[key]) == key
    ensures nodes[index[key]].parent == Some(key.0)
  {
    IndexedNode(Links(nodes), index, key);
  }

  lemma HashedAlive(nodes: Nodes, index: Index, pins: multiset<nat>, n: nat, dir: nat, name: string, cd: seq<nat>)
    requires Alive(nodes, index, pins, {}) && n in nodes && n != ROOT && nodes[n].parent == None
    requires Climb(Links(nodes), dir, cd) && n !in cd && (dir, name) !in index
    ensures dir in nodes && dir != n && Alive(Hashed(nodes, n, dir, name), index[(dir, name) := n], pins, {})
    ensures Links(Hashed(nodes, n, dir, name)) == Moved(Links(nodes), n, dir, name)
  {
    assert dir in cd && dir in nodes;
    NamelessLinks(nodes, n);
    HashedLinks(nodes, n, dir, name);
    hide Named, Climb, Links, Counted;
    HashNamed(Links(nodes), index, n, dir, name, cd);
    HashedCounts(nodes, index, pins, n, dir, name);
  }

  lemma HashedLinks(nodes: Nodes, n: nat, dir: nat, name: string)
    requires n in nodes && dir in nodes && dir != n
    ensures Links(Hashed(nodes, n, dir, name)) == Moved(Links(nodes), n, dir, name)
  {
  }

  lemma HashedCounts(nodes: Nodes, index: Index, pins: multiset<nat>, n: nat, dir: nat, name: string)
    requires Counted(nodes, index, pins, {}) && n in nodes && n != ROOT && dir in nodes && dir != n
    requires (dir, name) !in index
    ensures Counted(Hashed(nodes, n, dir, name), index[(dir, name) := n], pins, {})
  {
    var nodes' := Hashed(nodes, n, dir, name);
    hide Kids;
    forall m | m in nodes' ensures nodes'[m].refctr == Count(nodes', index[(dir, name) := n], pins, m) {
      KidsAdd(index, (dir, name), n, m);
      assert nodes[m].refctr == Count(nodes, index, pins, m);
    }
    forall m | m in nodes' && m != ROOT ensures nodes'[m].name.Some? <==> nodes'[m].parent.Some? {
      assert m != n ==> nodes'[m].name == nodes[m].name && nodes'[m].parent == nodes[m].parent;
    }
  }

  lemma FoundAlive(nodes: Nodes, index: Index, pins: multiset<nat>, id: nat, dir: nat, name: string, generation: nat)
    requires Alive(nodes, index, pins, {}) && dir in nodes && id !in nodes && (dir, name) !in index && id != ROOT
    ensures Alive(Found(nodes, id, dir, name, generation), index[(dir, name) := id], pins, {})
  {
    FoundNamed(nodes, index, id, dir, name, generation);
    FoundCounts(nodes, index, pins, id, dir, name, generation);
  }

  lemma FoundNamed(nodes: Nodes, index: Index, id: nat, dir: nat, name: string, generation: nat)
    requires Named(Links(nodes), index) && dir in nodes && id !in nodes && (dir, name) !in index && id != ROOT
    ensures Named(Links(Found(nodes, id, dir, name, generation)), index[(dir, name) := id])
    ensures Kids(index, id) == {}
  {
    var t := Links(nodes);
    var cd := AwayFrom(t, index, id, dir);
    NewNamed(t, index, id);
    FoundLinks(nodes, id, dir, name, generation);
    hide Named, Climb, Links;
    HashNamed(Unlinked(t, id), index, id, dir, name, cd);
    forall key | key in index ensures key.0 != id {
      IndexedNode(t, index, key);
    }
  }

  lemma AwayFrom(t: Tree, index: Index, id: nat, dir: nat) returns (cd: seq<nat>)
    requires Named(t, index) && dir in t && id !in t
    ensures Climb(Unlinked(t, id), dir, cd) && id !in cd
    ensures forall key | key in index :: key.0 in t
  {
    cd :| Climb(t, dir, cd);
    ClimbIn(t, dir, cd);
    ClimbAvoids(t, Unlinked(t, id), id, dir, cd);
  }

  lemma FoundLinks(nodes: Nodes, id: nat, dir: nat, name: string, generation: nat)
    requires dir in nodes && id !in nodes
    ensures Links(Found(nodes, id, dir, name, generation)) == Moved(Unlinked(Links(nodes), id), id, dir, name)
    ensures Links(nodes).Keys == nodes.Keys
  {
  }

  lemma FoundCounts(nodes: Nodes, index: Index, pins: multiset<nat>, id: nat, dir: nat, name: string, generation: nat)
    requires Counted(nodes, index, pins, {}) && dir in nodes && id !in nodes && (dir, name) !in index && id != ROOT
    requires Kids(index, id) == {}
    ensures Counted(Found(nodes, id, dir, name, generation), index[(dir, name) := id], pins, {})
  {
    var nodes', index' := Found(nodes, id, dir, name, generation), index[(dir, name) := id];
    forall m | m in nodes' ensures nodes'[m].refctr == Count(nodes', index', pins, m) {
      FoundCount(nodes, index, pins, id, dir, name, generation, m);
    }
    hide Kids, Count;
    forall m | m in nodes'
      ensures nodes'[m].refctr > 0 && (m != ROOT ==> (nodes'[m].name.Some? <==> nodes'[m].parent.Some?))
    {
      assert m != id ==> m in nodes && nodes[m].refctr > 0;
    }
    hide Found;
  }

  lemma FoundCount(nodes: Nodes, index: Index, pins: multiset<nat>, id: nat, dir: nat, name: string, generation: nat,
                   m: nat)
    requires dir in nodes && id !in nodes && (dir, name) !in index && Kids(index, id) == {} && id !in pins
    requires m == id || (m in nodes && nodes[m].refctr == Count(nodes, index, pins, m))
    ensures var nodes' := Found(nodes, id, dir, name, generation);
      m in nodes' && nodes'[m].refctr == Count(nodes', index[(dir, name) := id], pins, m)
  {
    hide Kids;
    KidsAdd(index, (dir, name), id, m);
  }

  /** What a caller of `unhash_name` can rely on: nodes with lookups survive, and nothing but the
      name of the node and those of deleted ancestors is gone. */
  lemma UnhashedFacts(nodes: Nodes, index: Index, pins: multiset<nat>, n: nat, up: seq<nat>, nodes': Nodes,
                      index': Index)
    requires Alive(nodes, index, pins, {}) && Unhashed(nodes, index, n, up, nodes', index')
    ensures n in nodes' && nodes'[n].parent == None
    ensures nodes[n].parent.Some? ==> KeyOf(Links(nodes), n) !in index'
    ensures index'.Keys <= index.Keys && forall key | key in index' :: index'[key] == index[key]
    ensures forall key | key in index && key !in index' :: index[key] == n || index[key] !in nodes'
    ensures forall m | m in nodes' && m != n ::
        m in nodes && nodes'[m].parent == nodes[m].parent && nodes'[m].name == nodes[m].name
    ensures SameLookups(nodes, nodes')
    ensures forall m | m in nodes && nodes[m].nlookup > 0 :: m in nodes' && nodes'[m].nlookup == nodes[m].nlookup
    ensures nodes[n].parent.Some? && nodes[n].parent.value in nodes && nodes[nodes[n].parent.value].nlookup > 0 ==>
      nodes'.Keys == nodes.Keys && index' == index - {KeyOf(Links(nodes), n)}
  {
    hide Counted, Reaps, Climb, Deleted, Links, KeyOf, Named, Kids;
    UnhashedKeeps(nodes, index, n, up, nodes', index');
    if nodes[n].parent.Some? {
      var c := ParentClimb(nodes, index, n);
      var p, nameless, key := nodes[n].parent.value, Nameless(nodes, n), KeyOf(Links(nodes), n);
      HasKid(nodes, index, n);
      Unname(nodes, index, pins, {}, n);
      hide Alive;
      ReapsFacts(nameless, index - {key}, pins + multiset{p}, p, up, nodes', index', c);
    }
  }

  lemma ReapsFacts(nodes: Nodes, index: Index, pins: multiset<nat>, p: nat, run: seq<nat>, nodes': Nodes,
                   index': Index, c: seq<nat>)
    requires Alive(nodes, index, pins, {}) && p in pins && Climb(Links(nodes), p, c)
    requires Reaps(nodes, index, p, run, nodes', index')
    ensures index'.Keys <= index.Keys && forall key | key in index' :: index'[key] == index[key]
    ensures forall key | key in index && key !in index' :: index[key] !in nodes'
    ensures forall m | m in nodes' ::
        m in nodes && nodes'[m].parent == nodes[m].parent && nodes'[m].name == nodes[m].name
    ensures SameLookups(nodes, nodes')
    ensures forall m | m in nodes && nodes[m].nlookup > 0 :: m in nodes' && nodes'[m].nlookup == nodes[m].nlookup
    ensures nodes[p].nlookup > 0 ==> nodes'.Keys == nodes.Keys && index' == index
  {
    hide Counted, Reaps, Climb, Links, KeyOf, Named;
    ReapsExactly(nodes, index, p, run, nodes', index', c);
    ReapsSpares(nodes, index, pins, p, run, c);
    ReapsFirst(nodes, index, p, run, nodes', index');
    ReapsOnlyNames(nodes, index, p, run, nodes', index', c);
    hide Alive;
  }

  lemma ReapsFirst(nodes: Nodes, index: Index, p: nat, run: seq<nat>, nodes': Nodes, index': Index)
    requires Reaps(nodes, index, p, run, nodes', index')
    ensures p in nodes && (run != [] ==> run[0] == p)
  {
  }

  lemma ReapsOnlyNames(nodes: Nodes, index: Index, p: nat, run: seq<nat>, nodes': Nodes, index': Index, c: seq<nat>)
    requires Named(Links(nodes), index) && Climb(Links(nodes), p, c) && Reaps(nodes, index, p, run, nodes', index')
    ensures forall key | key in index && key !in index' :: index[key] !in nodes'
    ensures index'.Keys <= index.Keys && forall key | key in index' :: index'[key] == index[key]
    ensures run == [] ==> index' == index
  {
    forall m | m in run && m in nodes && nodes[m].parent.Some?
      ensures KeyOf(Links(nodes), m) in index && index[KeyOf(Links(nodes), m)] == m
    {
      HasKid(nodes, index, m);
    }
    ReapsExactly(nodes, index, p, run, nodes', index', c);
    ReapsNames(nodes, index, p, run, nodes', index', c);
    assert run == [] ==> RunNames(nodes, run) == {};
    hide Named, Reaps, Climb, Links, KeyOf;
    forall key | key in index && key !in index' ensures index[key] !in nodes' {
      var m :| m in run && m in nodes && nodes[m].parent.Some? && key == KeyOf(Links(nodes), m);
    }
  }

  lemma UnhashedNot(nodes: Nodes, index: Index, n: nat, up: seq<nat>, nodes': Nodes, index': Index)
    requires n in nodes && Unhashed(nodes, index, n, up, nodes', index') && nodes[n].parent == None
    ensures nodes' == nodes && index' == index
  {
  }

  /** A directory with a lookup keeps its way up, at most cut short. */
  lemma UnhashedClimb(nodes: Nodes, index: Index, pins: multiset<nat>, n: nat, up: seq<nat>, nodes': Nodes,
                      index': Index, dir: nat, cd: seq<nat>) returns (cd': seq<nat>)
    requires Alive(nodes, index, pins, {}) && Unhashed(nodes, index, n, up, nodes', index')
    requires Alive(nodes', index', pins, {})
    requires Climb(Links(nodes), dir, cd) && dir in nodes && nodes[dir].nlookup > 0
    ensures Climb(Links(nodes'), dir, cd') && cd' <= cd
  {
    UnhashedFacts(nodes, index, pins, n, up, nodes', index');
    hide Counted, Unhashed;
    assert dir in Links(nodes');
    cd' :| Climb(Links(nodes'), dir, cd');
    ClimbCut(Links(nodes), Links(nodes'), dir, cd, cd');
  }

  /** A node with a lookup is never the last of its references. */
  lemma ReapsSpares(nodes: Nodes, index: Index, pins: multiset<nat>, p: nat, run: seq<nat>, c: seq<nat>)
    requires Alive(nodes, index, pins, {}) && p in pins && Climb(Links(nodes), p, c)
    requires |run| <= |c| && run == c[..|run|]
    requires forall i | 0 <= i < |run| :: run[i] in nodes && nodes[run[i]].refctr <= 1
    ensures forall m | m in run :: nodes[m].nlookup == 0
  {
    forall i | 0 <= i < |run| ensures nodes[run[i]].nlookup == 0 {
      hide Alive, Climb;
      if i > 0 {
        ClimbParent(nodes, p, c, i - 1);
        LastReference(nodes, index, pins, run[i], Some(c[i - 1]));
      } else {
        LastReference(nodes, index, pins, p, None);
      }
    }
  }

  lemma ClimbParent(nodes: Nodes, n: nat, c: seq<nat>, i: nat)
    requires Climb(Links(nodes), n, c) && i + 1 < |c|
    ensures c[0] == n && c[i] in nodes && nodes[c[i]].parent == Some(c[i + 1])
  {
    ClimbSuffix(Links(nodes), n, c, i);
    assert c[i..][1] == c[i + 1];
  }

  /** The one reference to a node is that of a pin or a child, not of a lookup. */
  lemma LastReference(nodes: Nodes, index: Index, pins: multiset<nat>, n: nat, child: Option<nat>)
    requires Alive(nodes, index, pins, {}) && n in nodes && nodes[n].refctr <= 1
    requires if child.Some? then child.value in nodes && nodes[child.value].parent == Some(n) else n in pins
    ensures nodes[n].nlookup == 0
  {
    assert nodes[n].refctr == Count(nodes, index, pins, n);
    if child.Some? {
      HasKid(nodes, index, child.value);
    }
  }

  /** The parent of the node has a lookup. */
  predicate KeptUp(nodes: Nodes, n: nat) {
    n in nodes && nodes[n].parent.Some? && nodes[n].parent.value in nodes && nodes[nodes[n].parent.value].nlookup > 0
  }

  lemma UnhashedKept(nodes: Nodes, index: Index, pins: multiset<nat>, n: nat, run: seq<nat>, nodes': Nodes,
                     index': Index)
    requires Alive(nodes, index, pins, {}) && n in nodes && Unhashed(nodes, index, n, run, nodes', index')
    ensures OthersKept(nodes, index, nodes', index', {KeyOf(Links(nodes), n)})
  {
    UnhashedFacts(nodes, index, pins, n, run, nodes', index');
    hide Unhashed, Links, KeyOf;
    forall key | key in index && key !in index' && key != KeyOf(Links(nodes), n) ensures index[key] !in nodes' {
      AliveIndex(nodes, index, pins, key);
    }
  }

  lemma BesideFacts(nodes: Nodes, index: Index, pins: multiset<nat>, n: nat, run: seq<nat>, nodes': Nodes,
                    index': Index, dir: nat, cd: seq<nat>) returns (cd': seq<nat>)
    requires Alive(nodes, index, pins, {}) && Alive(nodes', index', pins, {})
    requires n in nodes && Unhashed(nodes, index, n, run, nodes', index')
    requires dir in nodes && nodes[dir].nlookup > 0 && Climb(Links(nodes), dir, cd)
    ensures n in nodes' && nodes'[n].parent == None && dir in nodes' && nodes'[dir].nlookup > 0
    ensures Climb(Links(nodes'), dir, cd') && cd' <= cd
    ensures OthersKept(nodes, index, nodes', index', {KeyOf(Links(nodes), n)})
    ensures index'.Keys <= index.Keys && (nodes[n].parent.Some? ==> KeyOf(Links(nodes), n) !in index')
    ensures KeptUp(nodes, n) ==> nodes'.Keys == nodes.Keys && index' == index - {KeyOf(Links(nodes), n)}
    ensures nodes[n].parent == None ==> nodes' == nodes && index' == index
  {
    hide Alive, Links, KeyOf, Climb, Unhashed, OthersKept;
    UnhashedKept(nodes, index, pins, n, run, nodes', index');
    cd' := UnhashedClimb(nodes, index, pins, n, run, nodes', index', dir, cd);
    UnhashedFacts(nodes, index, pins, n, run, nodes', index');
    if nodes[n].parent == None {
      UnhashedNot(nodes, index, n, run, nodes', index');
    }
  }

  /** Keeping the others through two steps. */
  lemma KeptTwice(nodes: Nodes, index: Index, nodes1: Nodes, index1: Index, nodes2: Nodes, index2: Index,
                  keys1: set<(nat, string)>, keys2: set<(nat, string)>, keys: set<(nat, string)>)
    requires OthersKept(nodes, index, nodes1, index1, keys1) && OthersKept(nodes1, index1, nodes2, index2, keys2)
    requires keys1 <= keys && keys2 <= keys
    ensures OthersKept(nodes, index, nodes2, index2, keys)
  {
  }

  lemma HashedKept(nodes: Nodes, index: Index, n: nat, dir: nat, name: string)
    requires n in nodes && dir in nodes && dir != n
    ensures OthersKept(nodes, index, Hashed(nodes, n, dir, name), index[(dir, name) := n], {(dir, name)})
  {
  }

  lemma SameKept(nodes: Nodes, index: Index, keys: set<(nat, string)>)
    ensures OthersKept(nodes, index, nodes, index, keys)
  {
  }

  lemma ExpectLookups(nodes: Nodes, index: Index, nodes': Nodes, index': Index, keys: set<(nat, string)>)
    requires OthersKept(nodes, index, nodes', index', keys)
    ensures forall m | m in nodes && nodes[m].nlookup > 0 :: m in nodes' && nodes'[m].nlookup == nodes[m].nlookup
  {
  }

  /** Exchanging two entries of the name table, either of which may be missing. */
  function Exchanged(index: Index, a: (nat, string), b: (nat, string)): Index {
    var rest := index - {a, b};
    var one := if a in index then rest[b := index[a]] else rest;
    if b in index then one[a := index[b]] else one
  }

  lemma ExchangedTwice(index: Index, a: (nat, string), b: (nat, string))
    requires a != b
    ensures Exchanged(Exchanged(index, a, b), a, b) == index
  {
    var once := Exchanged(index, a, b);
    assert once - {a, b} == index - {a, b};
    assert a in once <==> b in index;
    assert b in once <==> a in index;
  }

  /** A child is not on the way up from its parent. */
  lemma NotAbove(nodes: Nodes, n: nat, dir: nat, c: seq<nat>)
    requires n in nodes && nodes[n].parent == Some(dir) && Climb(Links(nodes), dir, c)
    ensures n !in c
  {
    assert ([n] + c)[1..] == c && Climb(Links(nodes), n, [n] + c);
    forall i | 0 <= i < |c| ensures c[i] != n {
      ClimbDistinct(Links(nodes), n, [n] + c, 0, i + 1);
    }
  }

  lemma DifferentNames(nodes: Nodes, index: Index, pins: multiset<nat>, a: (nat, string), b: (nat, string))
    requires Alive(nodes, index, pins, {}) && a != b && b in index
    ensures a in index ==> index[a] != index[b]
  {
    if a in index {
      AliveIndex(nodes, index, pins, a);
      AliveIndex(nodes, index, pins, b);
    }
  }

  lemma HashedClimb(nodes: Nodes, n: nat, dir: nat, name: string, d: nat, c: seq<nat>)
    requires n in nodes && dir in nodes && dir != n && Climb(Links(nodes), d, c) && n !in c
    ensures Climb(Links(Hashed(nodes, n, dir, name)), d, c)
  {
    HashedLinks(nodes, n, dir, name);
    ClimbAvoids(Links(nodes), Links(Hashed(nodes, n, dir, name)), n, d, c);
  }

  /** The directory outlives its entry if and only if it has another reference: a lookup of it, a pin or
      another child. */
  lemma DirectoryStays(nodes: Nodes, index: Index, pins: multiset<nat>, n: nat, up: seq<nat>, nodes': Nodes,
                       index': Index)
    requires Alive(nodes, index, pins, {}) && n in nodes && nodes[n].parent.Some?
    requires Unhashed(nodes, index, n, up, nodes', index')
    ensures var dir := nodes[n].parent.value; dir in nodes && (dir in nodes' <==> nodes[dir].refctr > 1)
    ensures var dir := nodes[n].parent.value; dir in nodes && nodes[dir].nlookup > 0 ==> nodes[dir].refctr > 1
  {
    HasKid(nodes, index, n);
    var dir, nameless, key := nodes[n].parent.value, Nameless(nodes, n), KeyOf(Links(nodes), n);
    assert nodes[dir].refctr == Count(nodes, index, pins, dir);
    var c := ParentClimb(nodes, index, n);
    assert dir != n;
    ReapsExactly(nameless, index - {key}, dir, up, nodes', index', c);
  }

  /** Exchanging an entry with itself hashes its node twice, and the directory counts the child twice. */
  lemma HashedTwice(nodes: Nodes, index: Index, pins: multiset<nat>, n: nat, dir: nat, name: string, cd: seq<nat>)
    requires Alive(nodes, index, pins, {}) && n in nodes && n != ROOT && nodes[n].parent == None
    requires Climb(Links(nodes), dir, cd) && n !in cd && (dir, name) !in index
    ensures dir in nodes && dir != n
    ensures Alive(Hashed(nodes, n, dir, name), index[(dir, name) := n], pins, {})
    ensures !Alive(Hashed(Hashed(nodes, n, dir, name), n, dir, name), index[(dir, name) := n], pins, {})
  {
    hide Named, Climb;
    HashedAlive(nodes, index, pins, n, dir, name, cd);
    var once, index' := Hashed(nodes, n, dir, name), index[(dir, name) := n];
    var twice := Hashed(once, n, dir, name);
    assert once[dir].refctr == Count(once, index', pins, dir);
    assert twice[dir].refctr != Count(twice, index', pins, dir);
  }

  // ---------- the kernel's lookups ----------

  /** A node counts the lookups that the kernel has been given and has not given back, nobody has lookups
      on a node that is gone, and every node but the root carries a generation that was issued for it. */
  ghost predicate Tallied(nodes: Nodes, lookups: multiset<nat>, issued: seq<Issue>) {
    (forall n | n in nodes :: nodes[n].nlookup == lookups[n]) && (forall n | n in lookups :: n in nodes) &&
    forall n | n in nodes && n != ROOT ::
      exists i :: 0 <= i < |issued| && issued[i].id == n && issued[i].generation == nodes[n].generation
  }

  lemma TalliedSame(nodes: Nodes, nodes': Nodes, lookups: multiset<nat>, issued: seq<Issue>)
    requires Tallied(nodes, lookups, issued) && SameLookups(nodes, nodes')
    requires forall m | m in nodes && nodes[m].nlookup > 0 :: m in nodes'
    ensures Tallied(nodes', lookups, issued)
  {
    forall n | n in lookups ensures n in nodes' {
      assert nodes[n].nlookup == lookups[n] && lookups[n] > 0;
    }
  }

  lemma TalliedLooked(nodes: Nodes, lookups: multiset<nat>, issued: seq<Issue>, n: nat)
    requires Tallied(nodes, lookups, issued) && n in nodes
    ensures Tallied(Looked(nodes, n), lookups + multiset{n}, issued)
  {
  }

  lemma TalliedPinned(nodes: Nodes, lookups: multiset<nat>, issued: seq<Issue>, n: nat)
    requires Tallied(nodes, lookups, issued) && n in nodes
    ensures Tallied(nodes[n := nodes[n].(refctr := nodes[n].refctr + 1)], lookups, issued)
  {
    TalliedSame(nodes, nodes[n := nodes[n].(refctr := nodes[n].refctr + 1)], lookups, issued);
  }

  lemma TalliedHashed(nodes: Nodes, lookups: multiset<nat>, issued: seq<Issue>, n: nat, dir: nat, name: string)
    requires Tallied(nodes, lookups, issued) && n in nodes && dir in nodes && n != dir
    ensures Tallied(Hashed(nodes, n, dir, name), lookups, issued)
  {
    TalliedSame(nodes, Hashed(nodes, n, dir, name), lookups, issued);
  }

  lemma TalliedFound(nodes: Nodes, lookups: multiset<nat>, issued: seq<Issue>, id: nat, dir: nat, name: string,
                     generation: nat, wraps: nat)
    requires Tallied(nodes, lookups, issued) && dir in nodes && id !in nodes
    ensures Tallied(Found(nodes, id, dir, name, generation), lookups + multiset{id},
                    issued + [Issue(wraps, generation, id)])
  {
    var nodes', issued' := Found(nodes, id, dir, name, generation), issued + [Issue(wraps, generation, id)];
    assert id !in lookups;
    forall n | n in nodes' && n != ROOT
      ensures exists i :: 0 <= i < |issued'| && issued'[i].id == n && issued'[i].generation == nodes'[n].generation
    {
      if n == id {
        assert issued'[|issued|] == Issue(wraps, generation, id);
      } else {
        var i :| 0 <= i < |issued| && issued[i].id == n && issued[i].generation == nodes[n].generation;
        assert issued'[i] == issued[i];
      }
    }
  }

  lemma TalliedForgotten(nodes: Nodes, lookups: multiset<nat>, issued: seq<Issue>, n: nat, k: nat)
    requires Tallied(nodes, lookups, issued) && n in nodes && k <= lookups[n]
    ensures nodes[n].nlookup == lookups[n] && Tallied(Forgotten(nodes, n, k), lookups[n := lookups[n] - k], issued)
  {
  }

  /** Whatever a cascade deletes, nobody had lookups on it. */
  lemma TalliedReaps(nodes: Nodes, index: Index, pins: multiset<nat>, n: nat, lookups: multiset<nat>,
                     issued: seq<Issue>)
    requires Alive(nodes, index, pins, {}) && n in pins && Tallied(nodes, lookups, issued)
    ensures forall run, nodes', index' | Reaps(nodes, index, n, run, nodes', index') :: Tallied(nodes', lookups, issued)
  {
    hide Counted, Reaps, Tallied;
    forall run, nodes', index' | Reaps(nodes, index, n, run, nodes', index') ensures Tallied(nodes', lookups, issued) {
      ReapsFirst(nodes, index, n, run, nodes', index');
      assert n in Links(nodes);
      var c :| Climb(Links(nodes), n, c);
      ReapsFacts(nodes, index, pins, n, run, nodes', index', c);
      TalliedSame(nodes, nodes', lookups, issued);
    }
  }

  lemma TalliedUnhashed(nodes: Nodes, index: Index, pins: multiset<nat>, n: nat, up: seq<nat>, nodes': Nodes,
                        index': Index, lookups: multiset<nat>, issued: seq<Issue>)
    requires Alive(nodes, index, pins, {}) && Unhashed(nodes, index, n, up, nodes', index')
    requires Tallied(nodes, lookups, issued)
    ensures Tallied(nodes', lookups, issued)
  {
    hide Alive, Unhashed, Tallied;
    UnhashedFacts(nodes, index, pins, n, up, nodes', index');
    TalliedSame(nodes, nodes', lookups, issued);
  }

  // ---------- which ids have been given to nodes ----------

  /** The id and the generation of a node, and how often the generation had wrapped by then. */
  datatype Issue = Issue(wraps: nat, generation: nat, id: nat) {
    function Stamp(): nat {
      (wraps * WORD + generation) * WORD + id
    }
  }

  /** Stamps grow from one to the next, and none is beyond `now`. */
  ghost predicate Growing(issued: seq<Issue>, now: nat) {
    (forall i, j | 0 <= i < j < |issued| :: issued[i].Stamp() < issued[j].Stamp()) &&
    forall i | 0 <= i < |issued| :: issued[i].Stamp() <= now
  }

  lemma GrowingMore(issued: seq<Issue>, now: nat, issue: Issue)
    requires Growing(issued, now) && now < issue.Stamp()
    ensures Growing(issued + [issue], issue.Stamp())
  {
  }

  /** No pair of generation and id is given to two nodes while the generation has not wrapped. */
  lemma NoPairRepeats(issued: seq<Issue>, now: nat, i: nat, j: nat)
    requires Growing(issued, now) && i < j < |issued|
    ensures issued[i].wraps == issued[j].wraps ==>
      (issued[i].generation, issued[i].id) != (issued[j].generation, issued[j].id)
  {
    assert issued[i].Stamp() < issued[j].Stamp();
  }

  // ---------- the mounted filesystem ----------

  class Fuse {
    var nodes: Nodes          // id_table
    var index: Index          // name_table
    var ctr: nat              // the last id handed out
    var generation: nat
    ghost var wraps: nat      // how often the generation has wrapped at 32 bits
    ghost var issued: seq<Issue>  // of all nodes so far
    ghost var lookups: multiset<nat>  // what `FindNode` has returned and `ForgetNode` not taken back
    ghost var pins: multiset<nat>

    ghost predicate Valid()
      reads this
    {
      Alive(nodes, index, pins, {}) && Numbered() && Growing(issued, Stamp()) && Tallied(nodes, lookups, issued)
    }

    ghost predicate Numbered()
      reads this`ctr, this`generation
    {
      ctr < WORD && generation < WORD
    }

    /** `unref_node` */
    method UnrefNode(n: nat, ghost dying: set<nat>) returns (ghost run: seq<nat>)
      requires Alive(nodes, index, pins, dying) && n in nodes && n in pins
      modifies this`nodes, this`index, this`pins
      ensures Alive(nodes, index, pins, dying) && pins == old(pins) - multiset{n}
      ensures Reaps(old(nodes), old(index), n, run, nodes, index)
      decreases |index|, 2
    {
      hide Alive, Named, Deleted;
      ghost var was := nodes;
      DropPin(nodes, index, pins, dying, n);
      assert nodes[n].refctr > 0;
      nodes := nodes[n := nodes[n].(refctr := nodes[n].refctr - 1)];
      pins := pins - multiset{n};
      run := [];
      if nodes[n].refctr == 0 {
        run := DeleteNode(n, dying);
        ReapsByDeletion(was, old(index), n, run, nodes, index);
      }
    }

    /** `delete_node`: unhashes the name, which may delete ancestors, then the id, and frees. */
    method DeleteNode(n: nat, ghost dying: set<nat>) returns (ghost run: seq<nat>)
      requires Alive(nodes, index, pins, dying + {n}) && n in nodes && n !in dying && nodes[n].refctr == 0
      modifies this`nodes, this`index, this`pins
      ensures Alive(nodes, index, pins, dying) && pins == old(pins)
      ensures Deleted(old(nodes), old(index), n, run, nodes, index)
      decreases |index|, 1
    {
      hide Alive, Named, Deleted, Unhashed;
      DyingNode(nodes, index, pins, dying, n);
      ghost var nodes0, index0 := nodes, index;
      ghost var up := UnhashName(n, dying + {n});
      UnhashedKeeps(nodes0, index0, n, up, nodes, index);
      Bury(nodes, index, pins, dying + {n}, n);
      assert dying + {n} - {n} == dying;
      nodes := nodes - {n};
      run := [n] + up;
    }

    /** `unhash_name`: the parent loses the reference of its child. The source clears the two
        fields of the node after the recursive call, which does not look at them. */
    method UnhashName(n: nat, ghost dying: set<nat>) returns (ghost run: seq<nat>)
      requires Alive(nodes, index, pins, dying) && n in nodes && n != ROOT
      modifies this`nodes, this`index, this`pins
      ensures Alive(nodes, index, pins, dying) && pins == old(pins)
      ensures Unhashed(old(nodes), old(index), n, run, nodes, index)
      decreases |index|, 0
    {
      hide Alive, Named, Reaps, Links, KeyOf;
      HasName(nodes, index, pins, dying, n);
      run := [];
      if nodes[n].name.Some? {
        Unname(nodes, index, pins, dying, n);
        var parent := nodes[n].parent.value;
        index := index - {KeyOf(Links(nodes), n)};
        nodes := Nameless(nodes, n);
        pins := pins + multiset{parent};
        run := UnrefNode(parent, dying);
        assert old(pins) + multiset{parent} - multiset{parent} == old(pins);
      }
    }

    /** The state that `fuse_new` sets up: the root with one lookup. */
    constructor ()
      ensures Valid() && nodes.Keys == {ROOT} && index == map[] && pins == multiset{} && ctr == 0 && generation == 0
      ensures issued == [] && wraps == 0 && lookups == multiset{ROOT}
    {
      nodes, index := map[ROOT := Node(None, Some("/"), 1, 1, 0)], map[];
      ctr, generation, wraps, issued, pins, lookups := 0, 0, 0, [], multiset{}, multiset{ROOT};
      new;
      assert Climb(Links(nodes), ROOT, [ROOT]);
      assert Kids(index, ROOT) == {};
    }

    /** `inc_nlookup` */
    method IncLookup(n: nat)
      requires Valid() && n in nodes
      modifies this`nodes, this`lookups
      ensures Valid() && nodes == Looked(old(nodes), n) && lookups == old(lookups) + multiset{n}
    {
      hide Alive, Tallied;
      LookedAlive(nodes, index, pins, n);
      TalliedLooked(nodes, lookups, issued, n);
      nodes := Looked(nodes, n);
      lookups := lookups + multiset{n};
    }

    /** `hash_name`: fails when a name that does not fit into the node cannot be copied. */
    method HashName(n: nat, dir: nat, name: string, memory: bool, ghost cd: seq<nat>) returns (ok: bool)
      requires Valid() && n in nodes && n != ROOT && nodes[n].parent == None
      requires Climb(Links(nodes), dir, cd) && n !in cd && (dir, name) !in index
      modifies this`nodes, this`index
      ensures Valid() && dir in old(nodes) && dir != n && ok == (|name| < INLINE_NAME || memory)
      ensures nodes == if ok then Hashed(old(nodes), n, dir, name) else old(nodes)
      ensures index == if ok then old(index)[(dir, name) := n] else old(index)
    {
      hide Alive, Climb, Tallied;
      HashedAlive(nodes, index, pins, n, dir, name, cd);
      TalliedHashed(nodes, lookups, issued, n, dir, name);
      if |name| >= INLINE_NAME && !memory {
        return false;
      }
      nodes := Hashed(nodes, n, dir, name);
      index := index[(dir, name) := n];
      return true;
    }

    /** `find_node`: the node gets one more lookup; a name seen for the first time gets a new node.
        `alloc` and `memory` are what `alloc_node` and `strdup` report. */
    method FindNode(dir: nat, name: Option<string>, alloc: bool, memory: bool) returns (r: Option<nat>)
      requires Valid() && dir in nodes && |nodes| < FUSE_UNKNOWN_INO - 1
      modifies this`nodes, this`index, this`ctr, this`generation, this`wraps, this`issued, this`lookups
      ensures Valid() && old(Stamp()) <= Stamp()
      ensures lookups == if r.Some? then old(lookups) + multiset{r.value} else old(lookups)
      ensures name.None? ==> r == Some(dir)
      ensures name.Some? && (dir, name.value) in old(index) ==> r == Some(old(index)[(dir, name.value)])
      ensures name.None? || (dir, name.value) in old(index) ==>
        nodes == Looked(old(nodes), r.value) && index == old(index)
      ensures r.None? <==>
        name.Some? && (dir, name.value) !in old(index) && (!alloc || (|name.value| >= INLINE_NAME && !memory))
      ensures r.None? ==> nodes == old(nodes) && index == old(index)
      ensures r.Some? && name.Some? && (dir, name.value) !in old(index) ==>
        && r.value !in old(nodes) && 0 < r.value < FUSE_UNKNOWN_INO
        && nodes == Found(old(nodes), r.value, dir, name.value, generation)
        && index == old(index)[(dir, name.value) := r.value]
      ensures if r.Some? && name.Some? && (dir, name.value) !in old(index)
              then issued == old(issued) + [Issue(wraps, generation, r.value)] && r.value == ctr &&
                old(Stamp()) < Stamp()
              else issued == old(issued)
      ensures r.Some? && r.value !in old(nodes) ==> nodes[r.value].generation == generation
    {
      hide Alive, Tallied;
      if name.None? {
        IncLookup(dir);
        return Some(dir);
      }
      if (dir, name.value) in index {
        var node := index[(dir, name.value)];
        AliveIndex(nodes, index, pins, (dir, name.value));
        IncLookup(node);
        return Some(node);
      }
      if !alloc {
        return None;
      }
      r := MakeNode(dir, name.value, memory);
    }

    /** The part of `find_node` that makes a node. */
    method MakeNode(dir: nat, name: string, memory: bool) returns (r: Option<nat>)
      requires Valid() && dir in nodes && |nodes| < FUSE_UNKNOWN_INO - 1 && (dir, name) !in index
      modifies this`nodes, this`index, this`ctr, this`generation, this`wraps, this`issued, this`lookups
      ensures Valid() && old(Stamp()) < Stamp()
      ensures lookups == if r.Some? then old(lookups) + multiset{r.value} else old(lookups)
      ensures r.Some? ==> r.value in nodes && nodes[r.value].generation == generation
      ensures r.None? <==> |name| >= INLINE_NAME && !memory
      ensures r.None? ==> nodes == old(nodes) && index == old(index) && issued == old(issued)
      ensures r.Some? ==>
        && r.value == ctr && r.value !in old(nodes) && 0 < r.value < FUSE_UNKNOWN_INO
        && nodes == Found(old(nodes), r.value, dir, name, generation) && index == old(index)[(dir, name) := r.value]
        && issued == old(issued) + [Issue(wraps, generation, r.value)]
    {
      hide Alive, Tallied;
      var id := NextId();
      if |name| >= INLINE_NAME && !memory {
        return None;
      }
      AddNode(id, dir, name, old(Stamp()));
      return Some(id);
    }

    /** The new node is linked into its directory, and looked up. `was` is the stamp of the last one. */
    method AddNode(id: nat, dir: nat, name: string, ghost was: nat)
      requires Alive(nodes, index, pins, {}) && Numbered() && id == ctr && Growing(issued, was) && was < Stamp()
      requires Tallied(nodes, lookups, issued) && dir in nodes && id !in nodes && (dir, name) !in index
      modifies this`nodes, this`index, this`issued, this`lookups
      ensures Valid() && nodes == Found(old(nodes), id, dir, name, generation)
      ensures index == old(index)[(dir, name) := id] && issued == old(issued) + [Issue(wraps, generation, id)]
      ensures id in nodes && nodes[id].generation == generation && lookups == old(lookups) + multiset{id}
    {
      hide Alive, Tallied;
      AliveRoot(nodes, index, pins);
      FoundAlive(nodes, index, pins, id, dir, name, generation);
      TalliedFound(nodes, lookups, issued, id, dir, name, generation, wraps);
      GrowingMore(issued, was, Issue(wraps, generation, id));
      FoundSteps(nodes, id, dir, name, generation);
      hide Found, Looked, Growing;
      nodes := nodes[dir := nodes[dir].(refctr := nodes[dir].refctr + 1)];
      index := index[(dir, name) := id];
      nodes := nodes[id := Node(Some(dir), Some(name), 0, 0, generation)];
      nodes := Looked(nodes, id);
      issued := issued + [Issue(wraps, generation, id)];
      lookups := lookups + multiset{id};
    }

    /** `forget_node`, once the node is not locked: the kernel gives back lookups that it has. */
    method ForgetNode(n: nat, nlookup: nat) returns (ghost run: seq<nat>)
      requires Valid() && (n != ROOT ==> n in nodes && 0 < lookups[n] && nlookup <= lookups[n])
      modifies this`nodes, this`index, this`pins, this`lookups
      ensures Valid() && pins == old(pins)
      ensures lookups == if n == ROOT then old(lookups) else old(lookups)[n := old(lookups)[n] - nlookup]
      ensures n == ROOT ==> nodes == old(nodes) && index == old(index)
      ensures n != ROOT && nlookup < old(nodes)[n].nlookup ==>
        nodes == Forgotten(old(nodes), n, nlookup) && index == old(index)
      ensures n != ROOT && nlookup == old(nodes)[n].nlookup ==>
        Reaps(Forgotten(old(nodes), n, nlookup), old(index), n, run, nodes, index)
    {
      hide Alive, Reaps, Tallied;
      run := [];
      if n == ROOT {
        return;
      }
      TalliedForgotten(nodes, lookups, issued, n, nlookup);
      ForgottenAlive(nodes, index, pins, n, nlookup);
      assert nodes[n].nlookup >= nlookup;
      nodes := Forgotten(nodes, n, nlookup);
      hide Forgotten;
      lookups := lookups[n := lookups[n] - nlookup];
      if nodes[n].nlookup == 0 {
        pins := pins + multiset{n};
        TalliedReaps(nodes, index, pins, n, lookups, issued);
        run := UnrefNode(n, {});
        assert old(pins) + multiset{n} - multiset{n} == old(pins);
      }
    }

    /** A lookup of "." pins its node until the answer is sent. */
    method PinDot(n: nat)
      requires Valid() && n in nodes
      modifies this`nodes, this`pins
      ensures Valid() && pins == old(pins) + multiset{n}
      ensures nodes == old(nodes)[n := old(nodes)[n].(refctr := old(nodes)[n].refctr + 1)]
    {
      hide Alive, Tallied;
      TalliedPinned(nodes, lookups, issued, n);
      PinnedAlive(nodes, index, pins, n);
      nodes := nodes[n := nodes[n].(refctr := nodes[n].refctr + 1)];
      pins := pins + multiset{n};
    }

    method UnpinDot(n: nat) returns (ghost run: seq<nat>)
      requires Valid() && n in nodes && n in pins
      modifies this`nodes, this`index, this`pins
      ensures Valid() && pins == old(pins) - multiset{n} && Reaps(old(nodes), old(index), n, run, nodes, index)
    {
      hide Alive, Reaps, Tallied;
      TalliedReaps(nodes, index, pins, n, lookups, issued);
      run := UnrefNode(n, {});
    }

    /** `remove_node` */
    method RemoveNode(dir: nat, name: string) returns (ghost run: seq<nat>)
      requires Valid()
      modifies this`nodes, this`index, this`pins
      ensures Valid() && pins == old(pins) && (dir, name) !in index
      ensures if (dir, name) in old(index)
        then Unhashed(old(nodes), old(index), old(index)[(dir, name)], run, nodes, index)
              else run == [] && nodes == old(nodes) && index == old(index)
    {
      hide Alive, Unhashed, Links, KeyOf, Tallied;
      run := [];
      if (dir, name) in index {
        AliveIndex(nodes, index, pins, (dir, name));
        run := UnhashName(index[(dir, name)], {});
        UnhashedFacts(old(nodes), old(index), pins, old(index)[(dir, name)], run, nodes, index);
        TalliedSame(old(nodes), nodes, lookups, issued);
      }
    }

    /** `unhash_name` while the kernel holds a lookup on `dir`. */
    method UnhashBeside(n: nat, dir: nat, ghost cd: seq<nat>) returns (ghost cd': seq<nat>)
      requires Valid() && n in nodes && n != ROOT
      requires dir in nodes && nodes[dir].nlookup > 0 && Climb(Links(nodes), dir, cd)
      modifies this`nodes, this`index, this`pins
      ensures Valid() && pins == old(pins) && n in nodes && nodes[n].parent == None
      ensures dir in nodes && nodes[dir].nlookup > 0 && Climb(Links(nodes), dir, cd') && cd' <= cd
      ensures OthersKept(old(nodes), old(index), nodes, index, {KeyOf(Links(old(nodes)), n)})
      ensures index.Keys <= old(index).Keys && (old(nodes)[n].parent.Some? ==> KeyOf(Links(old(nodes)), n) !in index)
      ensures KeptUp(old(nodes), n) ==>
        nodes.Keys == old(nodes).Keys && index == old(index) - {KeyOf(Links(old(nodes)), n)}
      ensures old(nodes)[n].parent == None ==> nodes == old(nodes) && index == old(index)
    {
      hide Alive, Links, KeyOf, Climb, Unhashed, OthersKept, Tallied;
      ghost var run := UnhashName(n, {});
      TalliedUnhashed(old(nodes), old(index), pins, n, run, nodes, index, lookups, issued);
      cd' := BesideFacts(old(nodes), old(index), pins, n, run, nodes, index, dir, cd);
    }

    /** `rename_node`. The kernel holds a lookup on the new directory and never asks for one below
        the node that it moves. `memory` is what `strdup` reports. */
    method RenameNode(olddir: nat, oldname: string, newdir: nat, newname: string, hidden: bool, memory: bool,
                      ghost cd: seq<nat>)
      returns (err: Error)
      requires Valid() && newdir in nodes && nodes[newdir].nlookup > 0 && Climb(Links(nodes), newdir, cd)
      requires (olddir, oldname) in index ==> index[(olddir, oldname)] !in cd
      modifies this`nodes, this`index, this`pins
      ensures Valid() && pins == old(pins)
      ensures err == Busy <==> (olddir, oldname) in old(index) && (newdir, newname) in old(index) && hidden
      ensures err == NoMemory <==> (olddir, oldname) in old(index) && err != Busy && |newname| >= INLINE_NAME && !memory
      ensures (olddir, oldname) !in old(index) || err == Busy ==> nodes == old(nodes) && index == old(index)
      ensures (olddir, oldname) in old(index) && err == Success ==>
        (newdir, newname) in index && index[(newdir, newname)] == old(index)[(olddir, oldname)]
      ensures (olddir, oldname) in old(index) && err != Busy && (olddir, oldname) != (newdir, newname) ==>
        (olddir, oldname) !in index
      ensures OthersKept(old(nodes), old(index), nodes, index, {(olddir, oldname), (newdir, newname)})
      ensures (olddir, oldname) in old(index) && err == Success &&
              olddir in old(nodes) && old(nodes)[olddir].nlookup > 0 ==>
        index == (old(index) - {(olddir, oldname)})[(newdir, newname) := old(index)[(olddir, oldname)]]
    {
      hide Alive, Links, KeyOf, Climb, OthersKept, Hashed, Tallied;
      ghost var nodes0, index0, keys := nodes, index, {(olddir, oldname), (newdir, newname)};
      SameKept(nodes, index, keys);
      if (olddir, oldname) !in index {
        return Success;
      }
      var node := index[(olddir, oldname)];
      AliveIndex(nodes, index, pins, (olddir, oldname));
      ghost var cd1 := cd;
      if (newdir, newname) in index {
        if hidden {
          return Busy;
        }
        AliveIndex(nodes, index, pins, (newdir, newname));
        cd1 := UnhashBeside(index[(newdir, newname)], newdir, cd);
        KeptTwice(nodes0, index0, nodes0, index0, nodes, index, keys, {(newdir, newname)}, keys);
        if (olddir, oldname) in index {
          AliveIndex(nodes, index, pins, (olddir, oldname));
        }
      }
      ExpectLookups(nodes0, index0, nodes, index, keys);
      ghost var nodes1, index1 := nodes, index;
      ghost var cd2 := UnhashBeside(node, newdir, cd1);
      KeptTwice(nodes0, index0, nodes1, index1, nodes, index, keys, {(olddir, oldname)}, keys);
      ghost var nodes2, index2 := nodes, index;
      var ok := HashName(node, newdir, newname, memory, cd2);
      err := if ok then Success else NoMemory;
      if ok {
        HashedKept(nodes2, index2, node, newdir, newname);
        KeptTwice(nodes0, index0, nodes2, index2, nodes, index, keys, {(newdir, newname)}, keys);
      }
    }

    /** `unhash_name` of an entry of a directory, while the kernel holds lookups on that directory and
        on another one. */
    method UnhashEntry(key: (nat, string), other: nat, ghost ck: seq<nat>, ghost co: seq<nat>)
      returns (ghost ck': seq<nat>, ghost co': seq<nat>)
      requires Valid() && key.0 in nodes && nodes[key.0].nlookup > 0 && Climb(Links(nodes), key.0, ck)
      requires other in nodes && nodes[other].nlookup > 0 && Climb(Links(nodes), other, co)
      modifies this`nodes, this`index, this`pins
      ensures Valid() && pins == old(pins) && nodes.Keys == old(nodes).Keys && index == old(index) - {key}
      ensures Climb(Links(nodes), key.0, ck') && Climb(Links(nodes), other, co') && ck' <= ck && co' <= co
      ensures OthersKept(old(nodes), old(index), nodes, index, {key})
      ensures forall m | m in nodes ::
        nodes[m].parent == if key in old(index) && old(index)[key] == m then None else old(nodes)[m].parent
    {
      hide Alive, Links, KeyOf, Climb, Unhashed, OthersKept, Tallied;
      ck', co' := ck, co;
      if key in index {
        ghost var n := index[key];
        AliveIndex(nodes, index, pins, key);
        ghost var run := UnhashName(index[key], {});
        ck' := BesideFacts(old(nodes), old(index), pins, n, run, nodes, index, key.0, ck);
        co' := BesideFacts(old(nodes), old(index), pins, n, run, nodes, index, other, co);
        UnhashedFacts(old(nodes), old(index), pins, n, run, nodes, index);
        TalliedSame(old(nodes), nodes, lookups, issued);
      } else {
        SameKept(nodes, index, {key});
      }
    }

    /** The first half of `exchange_node`: both entries lose their names. */
    method UnhashBoth(a: (nat, string), b: (nat, string), ghost ca: seq<nat>, ghost cb: seq<nat>)
      returns (ghost ca': seq<nat>, ghost cb': seq<nat>)
      requires Valid() && a != b
      requires a.0 in nodes && nodes[a.0].nlookup > 0 && Climb(Links(nodes), a.0, ca)
      requires b.0 in nodes && nodes[b.0].nlookup > 0 && Climb(Links(nodes), b.0, cb)
      modifies this`nodes, this`index, this`pins
      ensures Valid() && pins == old(pins) && nodes.Keys == old(nodes).Keys && index == old(index) - {a, b}
      ensures Climb(Links(nodes), a.0, ca') && Climb(Links(nodes), b.0, cb') && ca' <= ca && cb' <= cb
      ensures forall key | key in {a, b} && key in old(index) ::
        var n := old(index)[key]; n in nodes && n != ROOT && nodes[n].parent == None
    {
      hide Alive, Links, KeyOf, Climb, OthersKept, Tallied;
      if a in index {
        AliveIndex(nodes, index, pins, a);
      }
      if b in index {
        AliveIndex(nodes, index, pins, b);
      }
      ghost var ca1, cb1 := UnhashEntry(a, b.0, ca, cb);
      ExpectLookups(old(nodes), old(index), nodes, index, {a});
      cb', ca' := UnhashEntry(b, a.0, cb1, ca1);
      assert index == old(index) - {a, b};
    }

    /** `exchange_node`. The kernel holds a lookup on both directories, and neither entry is above the
        other directory. `memory` is what `strdup` reports for the two names. */
    method ExchangeNode(a: (nat, string), b: (nat, string), memory: (bool, bool), ghost ca: seq<nat>,
                        ghost cb: seq<nat>)
      returns (err: Error)
      requires Valid() && a != b
      requires a.0 in nodes && nodes[a.0].nlookup > 0 && Climb(Links(nodes), a.0, ca)
      requires b.0 in nodes && nodes[b.0].nlookup > 0 && Climb(Links(nodes), b.0, cb)
      requires (a in index ==> index[a] !in cb) && (b in index ==> index[b] !in ca)
      modifies this`nodes, this`index, this`pins
      ensures Valid() && pins == old(pins) && nodes.Keys == old(nodes).Keys
      ensures err == Success || err == NoMemory
      ensures err == NoMemory <==>
        || (a in old(index) && |b.1| >= INLINE_NAME && !memory.0)
        || (b in old(index) && |a.1| >= INLINE_NAME && !memory.1)
      ensures err == Success ==> index == Exchanged(old(index), a, b)
      ensures err == Success ==>
        && index - {a, b} == old(index) - {a, b}
        && (if a in old(index) then b in index && index[b] == old(index)[a] else b !in index)
        && (if b in old(index) then a in index && index[a] == old(index)[b] else a !in index)
      ensures err == NoMemory ==> index - {a, b} == old(index) - {a, b} && a !in index
    {
      hide Alive, Links, KeyOf, Climb, Tallied;
      if a in index {
        AliveIndex(nodes, index, pins, a);
        NotAbove(nodes, index[a], a.0, ca);
      }
      var oldnode := if a in index then Some(index[a]) else None;
      var newnode := if b in index then Some(index[b]) else None;
      if b in index {
        DifferentNames(nodes, index, pins, a, b);
      }
      ghost var ca1, cb1 := UnhashBoth(a, b, ca, cb);
      if oldnode.Some? {
        ghost var nodes2 := nodes;
        var ok := HashName(oldnode.value, b.0, b.1, memory.0, cb1);
        if !ok {
          return NoMemory;
        }
        HashedClimb(nodes2, oldnode.value, b.0, b.1, a.0, ca1);
      }
      if newnode.Some? {
        var ok := HashName(newnode.value, a.0, a.1, memory.1, ca1);
        if !ok {
          return NoMemory;
        }
      }
      return Success;
    }

    /** How many steps the counter has made: generations and their wraps count the turns. */
    ghost function Stamp(): nat
      reads this`ctr, this`generation, this`wraps
    {
      Issue(wraps, generation, ctr).Stamp()
    }

    /** `next_id`: terminates because some id is free, and never goes back: until the generation
        wraps at 32 bits, no (generation, id) pair repeats. */
    method NextId() returns (id: nat)
      requires Numbered() && |nodes| < FUSE_UNKNOWN_INO - 1
      modifies this`ctr, this`generation, this`wraps
      ensures Numbered() && id == ctr && 0 < id < FUSE_UNKNOWN_INO && id !in nodes
      ensures old(Stamp()) < Stamp() <= old(Stamp()) + WORD
      ensures wraps == old(wraps) ==>
        generation > old(generation) || (generation == old(generation) && ctr > old(ctr))
    {
      ghost var free := FreeId(nodes.Keys);
      ghost var left := if ctr < free then free - ctr else free + WORD - ctr;
      ghost var all := left;
      while true
        invariant Numbered() && 0 < left <= all && Stamp() + left == old(Stamp()) + all
        invariant ctr + left == free || ctr + left == free + WORD
        decreases left
      {
        ctr := if ctr + 1 == WORD then 0 else ctr + 1;
        if ctr == 0 {
          generation, wraps := if generation + 1 == WORD then 0 else generation + 1,
                               if generation + 1 == WORD then wraps + 1 else wraps;
        }
        left := left - 1;
        if !(ctr == 0 || ctr == FUSE_UNKNOWN_INO || ctr in nodes) {
          return ctr;
        }
      }
    }
  }

  // ---------- ids ----------

  function UpTo(n: nat): set<nat> {
    if n == 0 then {} else UpTo(n - 1) + {n}
  }

  lemma {:induction false} UpToSize(n: nat)
    ensures |UpTo(n)| == n && forall i: nat :: i in UpTo(n) <==> 1 <= i <= n
  {
    if n > 0 {
      UpToSize(n - 1);
    }
  }

  /** Fewer nodes than ids leave a free id. */
  lemma FreeId(used: set<nat>) returns (id: nat)
    requires |used| < FUSE_UNKNOWN_INO - 1
    ensures 0 < id < FUSE_UNKNOWN_INO && id !in used
  {
    UpToSize(FUSE_UNKNOWN_INO - 1);
    if UpTo(FUSE_UNKNOWN_INO - 1) <= used {
      SubsetSize(UpTo(FUSE_UNKNOWN_INO - 1), used);
    }
    id :| id in UpTo(FUSE_UNKNOWN_INO - 1) && id !in used;
  }
}
