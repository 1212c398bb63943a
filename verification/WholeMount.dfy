/** Lookups, reference counts, the tree and the path locks as one machine (lib/fuse.c). Its state is what
    `NodeLifetime` and `PathLocks` have together. Its steps are the calls of `PathLocks`, in the order
    in which the threads take the mutex, and the sections that change counts, names and nodes. */
module WholeMount {
  import opened Wrappers
  import opened NodeTree
  import opened PathLocks
  import opened Interleavings
  import L = NodeLifetime
  import LockedNodes

  datatype Whole = Whole(nodes: L.Nodes, index: Index, pins: multiset<nat>, l: Locks, lockq: seq<Waiter>)

  function View(w: Whole): State {
    State(L.Links(w.nodes), w.index, w.l, w.lockq)
  }

  // ---------- what the kernel guarantees, and what the machine keeps ----------

  /** A request under way or in the queue names the node, or has it write-locked. */
  ghost predicate IsNamed(l: Locks, lockq: seq<Waiter>, n: nat) {
    (exists k :: k in l.held && (l.held[k].nodeid == n || l.held[k].wnode == Some(n))) ||
    exists q :: q in lockq && Names(q, n)
  }

  ghost predicate HasLookup(nodes: L.Nodes, n: nat) {
    n in nodes && nodes[n].nlookup > 0
  }

  /** Counts, tree and locks are right, and every node that is named has a lookup. */
  ghost predicate Inv(w: Whole) {
    L.Alive(w.nodes, w.index, w.pins, {}) && Sound(View(w)) &&
    forall n | IsNamed(w.l, w.lockq, n) :: HasLookup(w.nodes, n)
  }

  // ---------- the steps ----------

  datatype Step =
    | Locking(call: Call, out: Outcome)
    | Lookup(n: nat)
    | New(id: nat, dir: nat, name: string, generation: nat)
    | Pin(n: nat)
    | Unpin(n: nat, run: seq<nat>)
    | Forgets(n: nat, k: nat, run: seq<nat>)
    | Unhash(id: nat, n: nat, up: seq<nat>)
    | Hash(n: nat, dir: nat, name: string, cd: seq<nat>)

  predicate Quiet(call: Call) {
    call.Get? || call.GetBoth? || call.Give? || call.GiveBoth? || call.Leave? || call.Forget?
  }

  /** A call on the locks. `Perform` says what it does and that it leaves a sound state. The kernel has a
      lookup on a node that is named, or locked for writing, from then on. */
  ghost predicate LocksStep(call: Call, out: Outcome, w: Whole, w': Whole) {
    Quiet(call) && Does(call, out, View(w), View(w')) && Sound(View(w')) && w' == w.(l := w'.l, lockq := w'.lockq) &&
    forall n | IsNamed(w'.l, w'.lockq, n) && !IsNamed(w.l, w.lockq, n) :: HasLookup(w.nodes, n)
  }

  ghost function Without(words: LockWords, run: seq<nat>): LockWords {
    words - set m | m in run
  }

  /** A cascade: `UnrefNode` drops a reference to `n`, and the nodes of `run` go. */
  ghost predicate Cascade(nodes: L.Nodes, index: Index, n: nat, run: seq<nat>, w: Whole, w': Whole) {
    L.Reaps(nodes, index, n, run, w'.nodes, w'.index) &&
    w'.l == Locks(w.l.held, Without(w.l.words, run)) && w'.lockq == w.lockq
  }

  /** `forget_node`, when its wait is over; the kernel gives a last lookup back when none of its requests
      waits for the node. */
  ghost predicate ForgetsNode(n: nat, k: nat, run: seq<nat>, w: Whole, w': Whole) {
    n in w.nodes && n != ROOT && 0 < w.nodes[n].nlookup && k <= w.nodes[n].nlookup && w'.pins == w.pins &&
    if k < w.nodes[n].nlookup then run == [] && w' == w.(nodes := L.Forgotten(w.nodes, n, k))
    else n in w.l.words && w.l.words[n] == 0 && (forall q | q in w.lockq :: !Names(q, n)) &&
         Cascade(L.Forgotten(w.nodes, n, k), w.index, n, run, w, w')
  }

  ghost predicate Unhashable(id: nat, n: nat, w: Whole) {
    n in w.nodes && n != ROOT && n in w.l.words && (w.l.words[n] == 0 || w.l.words[n] == TREELOCK_WRITE) &&
    Absent(w.lockq, id) && forall k | k in w.l.held && w.l.held[k].wnode == Some(n) :: k.0 == id
  }

  /** `unhash_name` of a node that nobody reads through, and that only the request `id` may have locked */
  ghost predicate Unhashes(id: nat, n: nat, up: seq<nat>, w: Whole, w': Whole) {
    Unhashable(id, n, w) &&
    L.Unhashed(w.nodes, w.index, n, up, w'.nodes, w'.index) &&
    w'.pins == w.pins && w'.lockq == w.lockq &&
    w'.l == Locks(if w.nodes[n].parent.Some? then AfterMove(w.l.held, n) else w.l.held, Without(w.l.words, up))
  }

  /** `hash_name` of such a node into a directory that is not below it */
  ghost predicate Hashes(n: nat, dir: nat, name: string, cd: seq<nat>, w: Whole, w': Whole) {
    n in w.nodes && n != ROOT && w.nodes[n].parent == None && (dir, name) !in w.index &&
    n in w.l.words && (w.l.words[n] == 0 || w.l.words[n] == TREELOCK_WRITE) &&
    dir in w.nodes && dir != n && Climb(L.Links(w.nodes), dir, cd) && n !in cd &&
    w' == w.(nodes := L.Hashed(w.nodes, n, dir, name), index := w.index[(dir, name) := n])
  }

  ghost predicate Steps(step: Step, w: Whole, w': Whole) {
    match step
    case Locking(call, out) => LocksStep(call, out, w, w')
    case Lookup(n) => n in w.nodes && w' == w.(nodes := L.Looked(w.nodes, n))
    case New(id, dir, name, generation) =>
      id !in w.nodes && id != ROOT && dir in w.nodes && (dir, name) !in w.index &&
      w' == w.(nodes := L.Found(w.nodes, id, dir, name, generation), index := w.index[(dir, name) := id],
               l := Locks(w.l.held, w.l.words[id := 0]))
    case Pin(n) =>
      n in w.nodes &&
      w' == w.(nodes := w.nodes[n := w.nodes[n].(refctr := w.nodes[n].refctr + 1)], pins := w.pins + multiset{n})
    case Unpin(n, run) => n in w.pins && w'.pins == w.pins - multiset{n} && Cascade(w.nodes, w.index, n, run, w, w')
    case Forgets(n, k, run) => ForgetsNode(n, k, run, w, w')
    case Unhash(id, n, up) => Unhashes(id, n, up, w, w')
    case Hash(n, dir, name, cd) => Hashes(n, dir, name, cd, w, w')
  }

  /** The nodes that a step deletes */
  function Deleted(step: Step): seq<nat> {
    match step
    case Unpin(_, run) => run
    case Forgets(_, _, run) => run
    case Unhash(_, _, up) => up
    case _ => []
  }

  // ---------- parts of the invariant ----------

  lemma InvParts(w: Whole)
    requires Inv(w)
    ensures L.Alive(w.nodes, w.index, w.pins, {}) && WordsOk(w.l.held, w.l.words) && HoldsOk(w.l.held, L.Links(w.nodes))
    ensures w.l.words.Keys == w.nodes.Keys == L.Links(w.nodes).Keys && LockedNodes.KernelHolds(w.nodes, w.l.held)
    ensures Anchored(w.l.held, L.Links(w.nodes)) && QueueOk(w.lockq, w.l.held, L.Links(w.nodes))
    ensures Named(L.Links(w.nodes), w.index) && forall q | q in w.lockq :: !Failed(q)
    ensures forall n | IsNamed(w.l, w.lockq, n) :: HasLookup(w.nodes, n)
  {
    hide L.Alive, WordsOk, HoldsOk, Anchored, QueueOk, Named;
    forall k | k in w.l.held
      ensures HasLookup(w.nodes, w.l.held[k].nodeid)
      ensures w.l.held[k].wnode.Some? ==> HasLookup(w.nodes, w.l.held[k].wnode.value)
    {
      assert IsNamed(w.l, w.lockq, w.l.held[k].nodeid);
      assert w.l.held[k].wnode.Some? ==> IsNamed(w.l, w.lockq, w.l.held[k].wnode.value);
    }
  }

  /** What has to be shown after a step that leaves counts and tree right */
  lemma InvFrom(w: Whole)
    requires L.Alive(w.nodes, w.index, w.pins, {}) && w.l.words.Keys == w.nodes.Keys && WordsOk(w.l.held, w.l.words)
    requires HoldsOk(w.l.held, L.Links(w.nodes)) && Anchored(w.l.held, L.Links(w.nodes))
    requires QueueOk(w.lockq, w.l.held, L.Links(w.nodes)) && forall q | q in w.lockq :: !Failed(q)
    requires forall n | IsNamed(w.l, w.lockq, n) :: HasLookup(w.nodes, n)
    ensures Inv(w)
  {
    hide WordsOk, HoldsOk, Anchored, QueueOk, Named, L.Counted, IsNamed;
    assert L.Links(w.nodes).Keys == w.nodes.Keys;
  }

  /** The same nodes are named after the holders have moved a node. */
  lemma SameNamed(l: Locks, n: nat, words: LockWords, lockq: seq<Waiter>, m: nat)
    ensures IsNamed(Locks(AfterMove(l.held, n), words), lockq, m) ==> IsNamed(l, lockq, m)
    ensures IsNamed(Locks(l.held, words), lockq, m) ==> IsNamed(l, lockq, m)
  {
    var held := AfterMove(l.held, n);
    if k :| k in held && (held[k].nodeid == m || held[k].wnode == Some(m)) {
      assert k in l.held && (l.held[k].nodeid == m || l.held[k].wnode == Some(m));
    }
  }

  lemma WordsLess(held: Held, words: LockWords, run: seq<nat>)
    requires WordsOk(held, words)
    ensures WordsOk(held, Without(words, run)) && Without(words, run).Keys == words.Keys - set m | m in run
  {
    hide WordOk;
  }

  /** A tree that has lost nodes that nobody names: anchors and queue are as before. */
  lemma LessTree(t: Tree, t': Tree, l: Locks, lockq: seq<Waiter>, index: Index)
    requires Anchored(l.held, t) && QueueOk(lockq, l.held, t)
    requires forall m | m in t' :: m in t && t'[m] == t[m]
    requires forall n | IsNamed(l, lockq, n) :: n in t'
    ensures Anchored(l.held, t') && QueueOk(lockq, l.held, t')
  {
    forall k | k in l.held && l.held[k].wnode.Some? ensures l.held[k].wnode.value in t' {
      assert IsNamed(l, lockq, l.held[k].wnode.value);
    }
    forall n, q | n in t && n !in t' && q in lockq ensures !Names(q, n) {
      assert !IsNamed(l, lockq, n);
    }
    hide Anchored, QueueOk;
    QueueTree(lockq, l.held, t, t');
  }

  // ---------- every step ----------

  /** What `L.Links` and the lookups of a cascade are */
  lemma CascadeFacts(nodes: L.Nodes, index: Index, pins: multiset<nat>, n: nat, run: seq<nat>, nodes': L.Nodes,
                     index': Index)
    requires L.Alive(nodes, index, pins, {}) && n in pins && L.Reaps(nodes, index, n, run, nodes', index')
    ensures nodes'.Keys == nodes.Keys - set m | m in run
    ensures forall m | m in nodes' ::
        m in L.Links(nodes') && m in L.Links(nodes) && L.Links(nodes')[m] == L.Links(nodes)[m]
    ensures forall m | HasLookup(nodes, m) :: HasLookup(nodes', m)
  {
    hide L.Counted, L.Reaps;
    L.ReapsFirst(nodes, index, n, run, nodes', index');
    var t := L.Links(nodes);
    assert n in t;
    var c :| Climb(t, n, c);
    hide L.Alive, Named, Climb;
    L.ReapsExactly(nodes, index, n, run, nodes', index', c);
    L.ReapsFacts(nodes, index, pins, n, run, nodes', index', c);
  }

  /** Dropping a reference: what goes is unlocked, and everything else stays right. */
  lemma CascadeKeeps(nodes: L.Nodes, index: Index, pins: multiset<nat>, n: nat, run: seq<nat>, w: Whole, w': Whole)
    requires L.Alive(nodes, index, pins, {}) && n in pins && Cascade(nodes, index, n, run, w, w')
    requires w'.pins == pins - multiset{n}
    requires WordsOk(w.l.held, w.l.words) && w.l.words.Keys == nodes.Keys && HoldsOk(w.l.held, L.Links(nodes))
    requires Anchored(w.l.held, L.Links(nodes)) && QueueOk(w.lockq, w.l.held, L.Links(nodes))
    requires forall q | q in w.lockq :: !Failed(q)
    requires forall m | IsNamed(w.l, w.lockq, m) :: HasLookup(nodes, m)
    ensures Inv(w') && forall m | m in run :: m in w.l.words && w.l.words[m] == 0
  {
    hide L.Alive, WordsOk, HoldsOk, Anchored, QueueOk, L.Reaps, L.Links, Without, IsNamed, LockedNodes.KernelHolds;
    HoldersNamed(nodes, w);
    LockedNodes.ReapingSparesLocks(nodes, index, pins, n, run, w'.nodes, w'.index, w.l.held, w.l.words);
    CascadeFacts(nodes, index, pins, n, run, w'.nodes, w'.index);
    L.ReapsAlive(nodes, index, pins, n, run, w'.nodes, w'.index);
    LinksKeys(w'.nodes);
    LessTree(L.Links(nodes), L.Links(w'.nodes), w.l, w.lockq, index);
    WordsLess(w.l.held, w.l.words, run);
    NamedAfter(w, w');
    InvFrom(w');
  }

  lemma LinksKeys(nodes: L.Nodes)
    ensures L.Links(nodes).Keys == nodes.Keys
  {
  }

  lemma NamedAfter(w: Whole, w': Whole)
    requires w'.l.held == w.l.held && w'.lockq == w.lockq
    ensures forall m | IsNamed(w'.l, w'.lockq, m) :: IsNamed(w.l, w.lockq, m)
  {
  }

  lemma HoldersNamed(nodes: L.Nodes, w: Whole)
    requires forall m | IsNamed(w.l, w.lockq, m) :: HasLookup(nodes, m)
    ensures LockedNodes.KernelHolds(nodes, w.l.held)
  {
    forall k | k in w.l.held
      ensures HasLookup(nodes, w.l.held[k].nodeid)
      ensures w.l.held[k].wnode.Some? ==> HasLookup(nodes, w.l.held[k].wnode.value)
    {
      assert IsNamed(w.l, w.lockq, w.l.held[k].nodeid);
      assert w.l.held[k].wnode.Some? ==> IsNamed(w.l, w.lockq, w.l.held[k].wnode.value);
    }
  }

  lemma UnpinKeeps(n: nat, run: seq<nat>, w: Whole, w': Whole)
    requires Inv(w) && Steps(Unpin(n, run), w, w')
    ensures Inv(w') && forall m | m in run :: m in w.l.words && w.l.words[m] == 0
  {
    hide Inv, Cascade, L.Alive, WordsOk, HoldsOk, Anchored, QueueOk;
    InvParts(w);
    CascadeKeeps(w.nodes, w.index, w.pins, n, run, w, w');
  }

  lemma ForgetKeeps(n: nat, k: nat, run: seq<nat>, w: Whole, w': Whole)
    requires Inv(w) && ForgetsNode(n, k, run, w, w')
    ensures Inv(w') && forall m | m in run :: m in w.l.words && w.l.words[m] == 0
  {
    hide Inv, Sound, Cascade, L.Alive, WordsOk, HoldsOk, Anchored, QueueOk, IsNamed, Named;
    InvParts(w);
    var nodes := L.Forgotten(w.nodes, n, k);
    L.ForgottenAlive(w.nodes, w.index, w.pins, n, k);
    ForgottenLinks(w.nodes, n, k);
    if k < w.nodes[n].nlookup {
      assert forall m | HasLookup(w.nodes, m) :: HasLookup(nodes, m);
      InvFrom(w');
    } else {
      Unread(w.l.held, w.l.words, n);
      NotNamed(w, n);
      assert forall m | HasLookup(w.nodes, m) && m != n :: HasLookup(nodes, m);
      assert w.pins + multiset{n} - multiset{n} == w.pins;
      CascadeKeeps(nodes, w.index, w.pins + multiset{n}, n, run, w, w');
    }
  }

  lemma ForgottenLinks(nodes: L.Nodes, n: nat, k: nat)
    requires n in nodes && k <= nodes[n].nlookup
    ensures L.Links(L.Forgotten(nodes, n, k)) == L.Links(nodes) && L.Forgotten(nodes, n, k).Keys == nodes.Keys
  {
  }

  /** A node that nobody has locked and nobody waits for is not named. */
  lemma NotNamed(w: Whole, n: nat)
    requires n != ROOT && HoldsOk(w.l.held, L.Links(w.nodes)) && forall q | q in w.lockq :: !Names(q, n)
    requires forall k | k in w.l.held :: n !in w.l.held[k].nodes && w.l.held[k].wnode != Some(n)
    ensures !IsNamed(w.l, w.lockq, n)
  {
    forall k | k in w.l.held ensures w.l.held[k].nodeid != n {
      var h := w.l.held[k];
      assert StillThere(L.Links(w.nodes), h);
      assert (h.nodes + [ROOT])[0] == h.nodeid;
      assert h.nodes != [] ==> h.nodes[0] == h.nodeid;
    }
  }

  lemma UnhashKeeps(id: nat, n: nat, up: seq<nat>, w: Whole, w': Whole)
    requires Inv(w) && Unhashes(id, n, up, w, w')
    ensures Inv(w') && forall m | m in up :: m in w.l.words && w.l.words[m] == 0
  {
    hide Inv, Sound, L.Alive, WordsOk, HoldsOk, Anchored, QueueOk, IsNamed, Named, L.Reaps, KeyOf, Without;
    InvParts(w);
    if w.nodes[n].parent == None {
      WordsLess(w.l.held, w.l.words, up);
      NothingLess(w.l.words);
      assert w' == w;
    } else {
      var p, nodes, t := w.nodes[n].parent.value, L.Nameless(w.nodes, n), L.Links(w.nodes);
      var moved := w.(l := Locks(AfterMove(w.l.held, n), w.l.words));
      L.Unname(w.nodes, w.index, w.pins, {}, n);
      UnlinkIsSafeWhenUnread(w.l.held, t, w.l.words, n);
      AfterMoveKeeps(w.l.held, Unlinked(t, n), w.l.words, n);
      AnchoredMove(w.l.held, t, Unlinked(t, n), n);
      QueueTree(w.lockq, w.l.held, t, Unlinked(t, n));
      QueueMove(w.lockq, w.l.held, Unlinked(t, n), n);
      forall m | IsNamed(moved.l, w.lockq, m) ensures HasLookup(nodes, m) {
        SameNamed(w.l, n, w.l.words, w.lockq, m);
      }
      hide AfterMove, Unlinked;
      assert w.pins + multiset{p} - multiset{p} == w.pins;
      CascadeKeeps(nodes, w.index - {KeyOf(t, n)}, w.pins + multiset{p}, p, up, moved, w');
    }
  }

  lemma NothingLess(words: LockWords)
    ensures Without(words, []) == words
  {
  }

  lemma HashKeeps(n: nat, dir: nat, name: string, cd: seq<nat>, w: Whole, w': Whole)
    requires Inv(w) && Hashes(n, dir, name, cd, w, w')
    ensures Inv(w')
  {
    hide Inv, Sound, L.Alive, WordsOk, HoldsOk, QueueOk, IsNamed, Named, Climb, Anchored;
    InvParts(w);
    var t := L.Links(w.nodes);
    L.HashedAlive(w.nodes, w.index, w.pins, n, dir, name, cd);
    Unread(w.l.held, w.l.words, n);
    HoldsKept(w.l.held, t, Moved(t, n, dir, name), n);
    Nameless(w.l.held, t, n);
    AnchoredKept(w.l.held, t, Moved(t, n, dir, name), n);
    QueueTree(w.lockq, w.l.held, t, Moved(t, n, dir, name));
    assert forall m | HasLookup(w.nodes, m) :: HasLookup(w'.nodes, m);
    InvFrom(w');
  }

  lemma NewKeeps(id: nat, dir: nat, name: string, generation: nat, w: Whole, w': Whole)
    requires Inv(w) && Steps(New(id, dir, name, generation), w, w')
    ensures Inv(w')
  {
    hide Inv, Sound, L.Alive, WordsOk, HoldsOk, QueueOk, IsNamed, Named, Anchored;
    InvParts(w);
    L.FoundAlive(w.nodes, w.index, w.pins, id, dir, name, generation);
    L.FoundLinks(w.nodes, id, dir, name, generation);
    MovedTwice(L.Links(w.nodes), id, dir, name);
    NewNodeKeeps(L.Links(w.nodes), w.l, w.lockq, id, dir, name);
    assert forall m | HasLookup(w.nodes, m) :: HasLookup(w'.nodes, m);
    hide L.Links, L.Found, HasLookup, Moved, Unlinked;
    NamedAfter(w, w');
    InvFrom(w');
  }

  lemma NewNodeKeeps(t: Tree, l: Locks, lockq: seq<Waiter>, id: nat, dir: nat, name: string)
    requires WordsOk(l.held, l.words) && HoldsOk(l.held, t) && Anchored(l.held, t) && QueueOk(lockq, l.held, t)
    requires id !in t && id != ROOT
    ensures WordsOk(l.held, l.words[id := 0]) && HoldsOk(l.held, Moved(t, id, dir, name))
    ensures Anchored(l.held, Moved(t, id, dir, name)) && QueueOk(lockq, l.held, Moved(t, id, dir, name))
  {
    hide WordsOk, HoldsOk, QueueOk, Anchored;
    var t' := Moved(t, id, dir, name);
    NewIsUnread(l.held, t, l.words, id);
    HoldsKept(l.held, t, t', id);
    AnchoredKept(l.held, t, t', id);
    QueueTree(lockq, l.held, t, t');
  }

  lemma CountKeeps(step: Step, w: Whole, w': Whole)
    requires Inv(w) && (step.Lookup? || step.Pin?) && Steps(step, w, w')
    ensures Inv(w')
  {
    hide Inv, Sound, L.Alive, WordsOk, HoldsOk, QueueOk, IsNamed, Named, Anchored;
    InvParts(w);
    assert L.Links(w'.nodes) == L.Links(w.nodes);
    assert forall m | HasLookup(w.nodes, m) :: HasLookup(w'.nodes, m);
    hide L.Links, HasLookup;
    if step.Lookup? {
      L.LookedAlive(w.nodes, w.index, w.pins, step.n);
    } else {
      L.PinnedAlive(w.nodes, w.index, w.pins, step.n);
    }
    InvFrom(w');
  }

  /** Every step keeps all of it: counts, tree and locks fit together, every node that a request names has
      a lookup, and whatever is deleted has the lock word 0, as `delete_node` asserts. */
  lemma StepKeeps(step: Step, w: Whole, w': Whole)
    requires Inv(w) && Steps(step, w, w')
    ensures Inv(w') && forall m | m in Deleted(step) :: m in w.l.words && w.l.words[m] == 0
  {
    hide Inv, Cascade, ForgetsNode, Unhashes, Hashes;
    match step
    case Locking(call, out) => LockingKeeps(call, out, w, w');
    case Lookup(_) => CountKeeps(step, w, w');
    case New(id, dir, name, generation) => NewKeeps(id, dir, name, generation, w, w');
    case Pin(_) => CountKeeps(step, w, w');
    case Unpin(n, run) => UnpinKeeps(n, run, w, w');
    case Forgets(n, k, run) => ForgetKeeps(n, k, run, w, w');
    case Unhash(id, n, up) => UnhashKeeps(id, n, up, w, w');
    case Hash(n, dir, name, cd) => HashKeeps(n, dir, name, cd, w, w');
  }

  lemma LockingKeeps(call: Call, out: Outcome, w: Whole, w': Whole)
    requires Inv(w) && LocksStep(call, out, w, w')
    ensures Inv(w')
  {
    hide Sound, Does, IsNamed, L.Alive;
  }

  /** The state that `fuse_new` sets up */
  lemma InvStart()
    ensures Inv(Whole(map[ROOT := L.Node(None, Some("/"), 1, 1, 0)], map[], multiset{}, Locks(map[], map[ROOT := 0]),
                      []))
  {
    AliveStart();
    LocksStart();
    var w := Whole(map[ROOT := L.Node(None, Some("/"), 1, 1, 0)], map[], multiset{}, Locks(map[], map[ROOT := 0]), []);
    assert L.Links(w.nodes) == map[ROOT := Link(None, Some("/"))];
    hide Inv, L.Alive, WordsOk, HoldsOk, Anchored, QueueOk, L.Links;
    forall n ensures !IsNamed(w.l, w.lockq, n) {
    }
    hide IsNamed;
    InvFrom(w);
  }

  lemma AliveStart()
    ensures L.Alive(map[ROOT := L.Node(None, Some("/"), 1, 1, 0)], map[], multiset{}, {})
  {
    var nodes: L.Nodes := map[ROOT := L.Node(None, Some("/"), 1, 1, 0)];
    assert Climb(L.Links(nodes), ROOT, [ROOT]);
    assert L.Kids(map[], ROOT) == {};
  }

  lemma LocksStart()
    ensures var t: Tree := map[ROOT := Link(None, Some("/"))];
      WordsOk(map[], map[ROOT := 0]) && HoldsOk(map[], t) && Anchored(map[], t) && QueueOk([], map[], t)
  {
    assert Readers(map[], ROOT) == {};
  }

  /** So it holds in every state of every run. */
  lemma {:induction false} RunKeeps(states: seq<Whole>, steps: seq<Step>)
    requires |states| == |steps| + 1 && Inv(states[0])
    requires forall i | 0 <= i < |steps| :: Steps(steps[i], states[i], states[i + 1])
    ensures Inv(states[|steps|])
    decreases |steps|
  {
    hide Inv, Steps;
    if steps != [] {
      var k := |steps| - 1;
      RunKeeps(states[..k + 1], steps[..k]);
      StepKeeps(steps[k], states[k], states[k + 1]);
    }
  }

  // ---------- remove and rename are such steps ----------

  /** `remove_node` and the first halves of `rename_node`: the node behind a locked name can be unhashed. */
  lemma LockedUnhashable(id: nat, j: Half, dir: nat, name: string, w: Whole)
    requires Inv(w) && LockedName(w.l, w.index, (id, j), dir, name) && Absent(w.lockq, id) && (dir, name) in w.index
    ensures Unhashable(id, w.index[(dir, name)], w)
  {
    hide Inv, L.Alive, WordsOk, HoldsOk, Anchored, QueueOk, Named;
    InvParts(w);
    IndexedNode(L.Links(w.nodes), w.index, (dir, name));
    LockedNode(w.l.held, L.Links(w.nodes), w.index, w.l.words, (id, j), dir, name);
  }

  /** In a rename over an existing name the second node can be unhashed after the first. */
  lemma StillUnhashable(id: nat, n: nat, m: nat, up: seq<nat>, w: Whole, w': Whole)
    requires Inv(w) && Inv(w') && Unhashes(id, m, up, w, w') && Unhashable(id, n, w) && HasLookup(w.nodes, n)
    ensures Unhashable(id, n, w') && HasLookup(w'.nodes, n)
  {
    hide Inv, L.Alive, WordsOk, HoldsOk, Anchored, QueueOk, Named, L.Links, L.Unhashed;
    InvParts(w);
    InvParts(w');
    L.UnhashedFacts(w.nodes, w.index, w.pins, m, up, w'.nodes, w'.index);
  }

  /** Then it can be hashed under the new name: the way up from the new directory is locked, and avoids it. */
  lemma LockedHashable(id: nat, n: nat, newdir: nat, newname: string, w: Whole)
    requires Inv(w) && Unhashable(id, n, w) && w.nodes[n].parent == None && (newdir, newname) !in w.index
    requires (id, 2) in w.l.held && w.l.held[(id, 2)].nodeid == newdir
    ensures var cd := w.l.held[(id, 2)].nodes + [ROOT];
      newdir in w.nodes && newdir != n && Climb(L.Links(w.nodes), newdir, cd) && n !in cd
  {
    hide Inv, L.Alive, WordsOk, Anchored, QueueOk, Named, L.Links;
    InvParts(w);
    Unread(w.l.held, w.l.words, n);
    assert IsNamed(w.l, w.lockq, newdir);
    var h := w.l.held[(id, 2)];
    assert StillThere(L.Links(w.nodes), h);
    assert (h.nodes + [ROOT])[0] == newdir;
  }
}
