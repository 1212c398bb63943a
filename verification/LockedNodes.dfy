/** Node lifetime and path locks together (lib/fuse.c): the nodes that a last reference deletes are
    not locked, and no locked path runs through them. */
module LockedNodes {
  import opened Lists
  import opened Wrappers
  import opened NodeTree
  import L = NodeLifetime
  import P = PathLocks

  /** The kernel keeps a lookup on every node that a request under way names. */
  ghost predicate KernelHolds(nodes: L.Nodes, held: P.Held) {
    forall k | k in held ::
      && held[k].nodeid in nodes && nodes[held[k].nodeid].nlookup > 0
      && (held[k].wnode.Some? ==> held[k].wnode.value in nodes && nodes[held[k].wnode.value].nlookup > 0)
  }

  /** What is known of a run of nodes that go one after the other. */
  ghost predicate Doomed(nodes: L.Nodes, p: nat, run: seq<nat>, c: seq<nat>) {
    Climb(L.Links(nodes), p, c) && |run| <= |c| && run == c[..|run|] &&
    forall i | 0 <= i < |run| :: run[i] in nodes && nodes[run[i]].refctr <= 1 && nodes[run[i]].nlookup == 0
  }

  lemma Parent(nodes: L.Nodes, n: nat, c: seq<nat>, i: nat)
    requires Climb(L.Links(nodes), n, c) && i + 1 < |c|
    ensures c[i] in nodes && nodes[c[i]].parent == Some(c[i + 1])
  {
    ClimbSuffix(L.Links(nodes), n, c, i);
    assert c[i..][1] == c[i + 1];
  }

  lemma CountOf(nodes: L.Nodes, index: Index, pins: multiset<nat>, n: nat)
    requires L.Alive(nodes, index, pins, {}) && n in nodes
    ensures nodes[n].refctr == L.Count(nodes, index, pins, n) && Named(L.Links(nodes), index)
  {
  }

  /** Two children of one node make for a count of two at least. */
  lemma TwoKids(nodes: L.Nodes, index: Index, pins: multiset<nat>, n: nat, a: nat, b: nat)
    requires L.Alive(nodes, index, pins, {}) && n in nodes && nodes[n].refctr <= 1
    requires a in nodes && nodes[a].parent == Some(n) && b in nodes && nodes[b].parent == Some(n)
    ensures a == b && n !in pins
  {
    hide L.Alive, Named;
    CountOf(nodes, index, pins, n);
    var key, key', kids := KeyOf(L.Links(nodes), a), KeyOf(L.Links(nodes), b), L.Kids(index, n);
    L.HasKid(nodes, index, a);
    L.HasKid(nodes, index, b);
    hide L.Links;
    assert {key, key'} <= kids;
    SubsetSize({key, key'}, kids);
  }

  /** A doomed node has no child but the doomed one below it. */
  lemma OnlyChild(nodes: L.Nodes, index: Index, pins: multiset<nat>, p: nat, run: seq<nat>, c: seq<nat>, j: nat, q: nat)
    requires L.Alive(nodes, index, pins, {}) && p in pins && Doomed(nodes, p, run, c) && j < |run|
    requires q in nodes && nodes[q].parent == Some(run[j])
    ensures j > 0 && q == run[j - 1]
  {
    hide L.Alive, L.Links;
    assert run[0] == p;
    TwoKids(nodes, index, pins, run[j], q, q);
    if j > 0 {
      Parent(nodes, p, c, j - 1);
      TwoKids(nodes, index, pins, run[j], q, run[j - 1]);
    }
  }

  /** No locked path runs through a doomed node. */
  lemma {:induction false} DoomedUnread(nodes: L.Nodes, index: Index, pins: multiset<nat>, p: nat, run: seq<nat>,
                                        c: seq<nat>, j: nat, h: P.Hold)
    requires L.Alive(nodes, index, pins, {}) && p in pins && Doomed(nodes, p, run, c) && j < |run|
    requires P.StillThere(L.Links(nodes), h) && h.nodeid in nodes && nodes[h.nodeid].nlookup > 0
    ensures run[j] !in h.nodes
    decreases j
  {
    hide L.Alive, L.Links;
    if i :| 0 <= i < |h.nodes| && h.nodes[i] == run[j] {
      var d := h.nodes + [ROOT];
      assert d[0] == h.nodeid;
      hide Climb;
      if i > 0 {
        Parent(nodes, h.nodeid, d, i - 1);
        OnlyChild(nodes, index, pins, p, run, c, j, h.nodes[i - 1]);
        DoomedUnread(nodes, index, pins, p, run, c, j - 1, h);
      }
    }
  }

  lemma {:induction false} SameClimb(t: Tree, t': Tree, n: nat, c: seq<nat>)
    requires Climb(t, n, c) && forall m | m in c :: m in t && m in t' && t'[m] == t[m]
    ensures Climb(t', n, c)
    decreases |c|
  {
    if t[n].parent.Some? {
      SameClimb(t, t', t[n].parent.value, c[1..]);
    }
  }

  lemma StaysThere(t: Tree, t': Tree, h: P.Hold)
    requires P.StillThere(t, h) && ROOT in t && ROOT in t' && t'[ROOT] == t[ROOT]
    requires forall m | m in h.nodes :: m in t && m in t' && t'[m] == t[m]
    ensures P.StillThere(t', h)
  {
    ClimbIn(t, h.nodeid, h.nodes + [ROOT]);
    SameClimb(t, t', h.nodeid, h.nodes + [ROOT]);
    SpellSame(t, t', h.nodes);
  }

  /** With no reader and no writer the word is 0. */
  lemma NobodyHolds(held: P.Held, words: P.LockWords, m: nat)
    requires P.WordsOk(held, words) && m in words
    requires forall k | k in held :: m !in held[k].nodes && held[k].wnode != Some(m)
    ensures words[m] == 0
  {
    assert P.WordOk(held, words[m], m);
    assert P.Readers(held, m) == {};
    assert forall k :: !P.Writes(held, k, m);
  }

  /** What a request names is not deleted. */
  lemma DoomedUnheld(nodes: L.Nodes, index: Index, pins: multiset<nat>, p: nat, run: seq<nat>, c: seq<nat>,
                     held: P.Held)
    requires L.Alive(nodes, index, pins, {}) && p in pins && Doomed(nodes, p, run, c)
    requires P.HoldsOk(held, L.Links(nodes)) && KernelHolds(nodes, held)
    ensures forall m, k | m in run && k in held :: m !in held[k].nodes && held[k].wnode != Some(m)
  {
    forall m, k | m in run && k in held ensures m !in held[k].nodes && held[k].wnode != Some(m) {
      var j :| 0 <= j < |run| && run[j] == m;
      hide L.Alive;
      DoomedUnread(nodes, index, pins, p, run, c, j, held[k]);
    }
  }

  lemma ReapingDooms(nodes: L.Nodes, index: Index, pins: multiset<nat>, p: nat, run: seq<nat>,
                     nodes': L.Nodes, index': Index) returns (c: seq<nat>)
    requires L.Alive(nodes, index, pins, {}) && p in pins && L.Reaps(nodes, index, p, run, nodes', index')
    ensures Doomed(nodes, p, run, c)
    ensures nodes' == L.Survivors(nodes, run, if |run| < |c| then Some(c[|run|]) else None)
  {
    hide L.Counted;
    L.ReapsFirst(nodes, index, p, run, nodes', index');
    var t := L.Links(nodes);
    assert p in t;
    c :| Climb(t, p, c);
    hide L.Links;
    L.ReapsExactly(nodes, index, p, run, nodes', index', c);
    L.ReapsSpares(nodes, index, pins, p, run, c);
  }

  /** Dropping the last reference to a node deletes only nodes whose lock word is 0, so the assert of
      `delete_node` holds, and every locked path is afterwards what it was. */
  lemma ReapingSparesLocks(nodes: L.Nodes, index: Index, pins: multiset<nat>, p: nat, run: seq<nat>,
                           nodes': L.Nodes, index': Index, held: P.Held, words: P.LockWords)
    requires L.Alive(nodes, index, pins, {}) && p in pins && L.Reaps(nodes, index, p, run, nodes', index')
    requires P.WordsOk(held, words) && P.HoldsOk(held, L.Links(nodes)) && nodes.Keys <= words.Keys
    requires KernelHolds(nodes, held)
    ensures forall m | m in run :: m in words && words[m] == 0
    ensures P.HoldsOk(held, L.Links(nodes')) && KernelHolds(nodes', held)
  {
    hide L.Reaps, L.Counted, P.WordsOk, P.StillThere, Climb;
    var c := ReapingDooms(nodes, index, pins, p, run, nodes', index');
    DoomedUnheld(nodes, index, pins, p, run, c, held);
    forall m | m in run ensures m in words && words[m] == 0 {
      NobodyHolds(held, words, m);
    }
    var t, t' := L.Links(nodes), L.Links(nodes');
    forall m | m in nodes && m !in run ensures m in t && m in t' && t'[m] == t[m] {
    }
    forall k | k in held ensures P.StillThere(t', held[k]) {
      NodesIn(t, held[k]);
      StaysThere(t, t', held[k]);
    }
  }

  lemma NodesIn(t: Tree, h: P.Hold)
    requires P.StillThere(t, h)
    ensures ROOT in t && forall m | m in h.nodes :: m in t
  {
    ClimbIn(t, h.nodeid, h.nodes + [ROOT]);
    assert ROOT in h.nodes + [ROOT];
  }

  // ---------- forget ----------

  /** The loop in `forget_node` ends when others have looked the node up or nobody holds it; then no
      request under way names a node that loses its last lookup. */
  lemma ForgottenIsNotNamed(nodes: L.Nodes, n: nat, k: nat, held: P.Held, words: P.LockWords)
    requires KernelHolds(nodes, held) && P.WordsOk(held, words) && P.HoldsOk(held, L.Links(nodes))
    requires n in nodes && n in words && n != ROOT && k <= nodes[n].nlookup
    requires k != nodes[n].nlookup || words[n] == 0
    ensures KernelHolds(L.Forgotten(nodes, n, k), held)
  {
    if k == nodes[n].nlookup {
      P.Unread(held, words, n);
      forall j | j in held ensures held[j].nodeid != n {
        assert P.StillThere(L.Links(nodes), held[j]);
        assert held[j].nodes != [] ==> (held[j].nodes + [ROOT])[0] == held[j].nodes[0];
      }
    }
  }

  /** `forget_node` after its loop: whatever it deletes is unlocked, and the locked paths stay. */
  lemma ForgetSparesLocks(nodes: L.Nodes, index: Index, pins: multiset<nat>, n: nat, k: nat, run: seq<nat>,
                          nodes': L.Nodes, index': Index, held: P.Held, words: P.LockWords)
    requires L.Alive(nodes, index, pins, {}) && n in nodes && n != ROOT && 0 < nodes[n].nlookup && k <= nodes[n].nlookup
    requires P.WordsOk(held, words) && P.HoldsOk(held, L.Links(nodes)) && nodes.Keys <= words.Keys
    requires KernelHolds(nodes, held) && (k != nodes[n].nlookup || words[n] == 0)
    requires if k < nodes[n].nlookup then run == [] && nodes' == L.Forgotten(nodes, n, k)
             else L.Reaps(L.Forgotten(nodes, n, k), index, n, run, nodes', index')
    ensures forall m | m in run :: m in words && words[m] == 0
    ensures P.HoldsOk(held, L.Links(nodes')) && KernelHolds(nodes', held)
  {
    hide L.Alive, L.Reaps, P.WordsOk, P.HoldsOk, KernelHolds;
    var after := L.Forgotten(nodes, n, k);
    ForgottenIsNotNamed(nodes, n, k, held, words);
    assert L.Links(after) == L.Links(nodes);
    if k == nodes[n].nlookup {
      L.ForgottenAlive(nodes, index, pins, n, k);
      ReapingSparesLocks(after, index, pins + multiset{n}, n, run, nodes', index', held, words);
    }
  }

  // ---------- remove and rename ----------

  /** `unhash_name` of a node that nobody reads through: the ancestors that go with it are unlocked, and
      the locked paths stay. */
  lemma UnhashSparesLocks(nodes: L.Nodes, index: Index, pins: multiset<nat>, n: nat, up: seq<nat>,
                          nodes': L.Nodes, index': Index, held: P.Held, words: P.LockWords)
    requires L.Alive(nodes, index, pins, {}) && n != ROOT && L.Unhashed(nodes, index, n, up, nodes', index')
    requires P.WordsOk(held, words) && P.HoldsOk(held, L.Links(nodes)) && nodes.Keys <= words.Keys
    requires KernelHolds(nodes, held) && n in words && (words[n] == 0 || words[n] == P.TREELOCK_WRITE)
    ensures forall m | m in up :: m in words && words[m] == 0
    ensures P.HoldsOk(held, L.Links(nodes')) && KernelHolds(nodes', held)
  {
    hide L.Alive, L.Reaps, P.WordsOk, P.HoldsOk, L.Links, KeyOf;
    if nodes[n].parent.Some? {
      var p, nameless, key := nodes[n].parent.value, L.Nameless(nodes, n), KeyOf(L.Links(nodes), n);
      L.Unname(nodes, index, pins, {}, n);
      P.UnlinkIsSafeWhenUnread(held, L.Links(nodes), words, n);
      ReapingSparesLocks(nameless, index - {key}, pins + multiset{p}, p, up, nodes', index', held, words);
    }
  }

  /** `hash_name` of a node that nobody reads through. */
  lemma HashSparesLocks(nodes: L.Nodes, n: nat, dir: nat, name: string, held: P.Held, words: P.LockWords)
    requires P.WordsOk(held, words) && P.HoldsOk(held, L.Links(nodes)) && KernelHolds(nodes, held)
    requires n in nodes && dir in nodes && n != dir && n != ROOT
    requires n in words && (words[n] == 0 || words[n] == P.TREELOCK_WRITE)
    ensures P.HoldsOk(held, L.Links(L.Hashed(nodes, n, dir, name))) && KernelHolds(L.Hashed(nodes, n, dir, name), held)
  {
    hide P.HoldsOk, P.WordsOk;
    P.Unread(held, words, n);
    P.HoldsKept(held, L.Links(nodes), L.Links(L.Hashed(nodes, n, dir, name)), n);
  }

  /** The three steps of `rename_node`, of which the first is left out if the new name has no node, on
      nodes that nobody reads through: nothing that is locked is deleted, and the locked paths stay. */
  lemma RenameSparesLocks(nodes: L.Nodes, index: Index, pins: multiset<nat>, m: Option<nat>, n: nat, dir: nat,
                          name: string, up1: seq<nat>, nodes1: L.Nodes, index1: Index, up2: seq<nat>, nodes2: L.Nodes,
                          index2: Index, held: P.Held, words: P.LockWords)
    requires L.Alive(nodes, index, pins, {}) && L.Alive(nodes1, index1, pins, {})
    requires if m.Some? then m.value != ROOT && L.Unhashed(nodes, index, m.value, up1, nodes1, index1)
             else up1 == [] && nodes1 == nodes && index1 == index
    requires L.Unhashed(nodes1, index1, n, up2, nodes2, index2)
    requires n != ROOT && n in nodes2 && dir in nodes2 && dir != n
    requires P.WordsOk(held, words) && P.HoldsOk(held, L.Links(nodes)) && nodes.Keys <= words.Keys
    requires KernelHolds(nodes, held)
    requires m.Some? ==> m.value in words && (words[m.value] == 0 || words[m.value] == P.TREELOCK_WRITE)
    requires n in words && (words[n] == 0 || words[n] == P.TREELOCK_WRITE)
    ensures forall a | a in up1 + up2 :: a in words && words[a] == 0
    ensures var nodes3 := L.Hashed(nodes2, n, dir, name); P.HoldsOk(held, L.Links(nodes3)) && KernelHolds(nodes3, held)
  {
    if m.Some? {
      L.UnhashedFacts(nodes, index, pins, m.value, up1, nodes1, index1);
    }
    hide L.Alive, L.Unhashed, P.WordsOk, P.HoldsOk, KernelHolds, L.Hashed, L.Links;
    if m.Some? {
      UnhashSparesLocks(nodes, index, pins, m.value, up1, nodes1, index1, held, words);
    }
    UnhashSparesLocks(nodes1, index1, pins, n, up2, nodes2, index2, held, words);
    HashSparesLocks(nodes2, n, dir, name, held, words);
  }
}
