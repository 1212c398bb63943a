/** The path locks of lib/fuse.c. A request that works on a path holds a read lock on every node
    from its directory up to the root, and a write lock on the node it may move or remove. One
    signed integer per node, `treelock`, encodes both and also a writer that waits.

    Every section that the source runs under `f->lock` is one method; the ghost map `held` lists
    the paths that are locked in between. So what `Valid` says holds in every interleaving. */
module PathLocks {
  import opened Lists
  import opened Wrappers
  import opened NodeTree
  import PathBuffers

  const INT_MIN: int := -0x8000_0000
  const INT_MAX: int := 0x7fff_ffff
  const TREELOCK_WRITE: int := -1
  const TREELOCK_WAIT_OFFSET: int := INT_MIN

  datatype Status = Ok | Again | NoEntry | NoMemory

  /** One locked path. `nodes` are the read-locked nodes, from `nodeid` up to below the root, and
      `moved` tells that the write-locked node has been taken from its name in the meantime. */
  datatype Hold = Hold(nodeid: nat, name: Option<string>, path: string, wnode: Option<nat>, nodes: seq<nat>,
                       moved: bool)

  /** A request and which of its two paths. */
  type Half = n: nat | n == 1 || n == 2 witness 1
  type Token = (nat, Half)

  type Held = map<Token, Hold>
  type LockWords = map<nat, int>

  /** The holders and the lock words at one time. */
  datatype Locks = Locks(held: Held, words: LockWords)

  // ---------- what the lock word means ----------

  ghost function Readers(held: Held, n: nat): set<Token> {
    set k | k in held && n in held[k].nodes
  }

  ghost predicate Writes(held: Held, k: Token, n: nat) {
    k in held && held[k].wnode == Some(n)
  }

  /** With r holders reading through the node, its word is r, or INT_MIN + r if a writer waits
      (never with r = 0), and it is -1 exactly when the node is write-locked, then by one holder
      and with no reader. */
  ghost predicate WordOk(held: Held, word: int, n: nat) {
    var r := |Readers(held, n)|;
    (forall k, k' | Writes(held, k, n) && Writes(held, k', n) :: k == k') &&
    if exists k :: Writes(held, k, n) then word == TREELOCK_WRITE && r == 0
    else word == r || (r > 0 && word == TREELOCK_WAIT_OFFSET + r)
  }

  ghost predicate WordsOk(held: Held, words: LockWords) {
    |held| < INT_MAX && forall n | n in words :: WordOk(held, words[n], n)
  }

  /** `path` as `try_get_path` builds it over `nodes`. */
  function PathText(t: Tree, nodes: seq<nat>, name: Option<string>): string {
    if name.Some? then Spell(t, nodes) + "/" + name.value
    else if nodes == [] then "/" else Spell(t, nodes)
  }

  /** The tree still has the chain of nodes and the path that were locked. */
  ghost predicate StillThere(t: Tree, h: Hold) {
    Attached(t, h.nodeid, h.nodes + [ROOT]) && h.path == PathText(t, h.nodes, h.name)
  }

  ghost predicate HoldsOk(held: Held, t: Tree) {
    forall k | k in held :: StillThere(t, held[k]) && (held[k].wnode.Some? ==> held[k].wnode.value in t)
  }

  /** A write-locked node keeps the name under which it was locked until its holder moves it. */
  ghost predicate Anchored(held: Held, t: Tree) {
    forall k | k in held && held[k].wnode.Some? && !held[k].moved ::
      held[k].wnode.value in t && t[held[k].wnode.value] == Link(Some(held[k].nodeid), held[k].name)
  }

  ghost predicate TreeOk(t: Tree, index: Index, words: LockWords) {
    Named(t, index) && words.Keys == t.Keys
  }

  // ---------- taking and releasing ----------

  /** `treelock++` along the nodes. */
  function Raised(words: LockWords, nodes: seq<nat>): LockWords {
    map n | n in words :: if n in nodes then words[n] + 1 else words[n]
  }

  /** `treelock--` along the nodes, and a waiting writer's mark without readers is cleared. */
  function Lowered(words: LockWords, nodes: seq<nat>): LockWords {
    map n | n in words :: if n in nodes then Lower(words[n]) else words[n]
  }

  function Lower(word: int): int {
    if word - 1 == TREELOCK_WAIT_OFFSET then 0 else word - 1
  }

  /** The three assertions of `unlock_path`. */
  predicate Releasable(word: int) {
    word != 0 && word != TREELOCK_WAIT_OFFSET && word != TREELOCK_WRITE
  }

  function WithWord(words: LockWords, n: Option<nat>, word: int): LockWords {
    if n.Some? then words[n.value := word] else words
  }

  lemma ReadersAdd(held: Held, k: Token, h: Hold, n: nat)
    requires k !in held
    ensures |Readers(held[k := h], n)| == |Readers(held, n)| + if n in h.nodes then 1 else 0
    ensures |Readers(held, n)| <= |held|
  {
    var s := Readers(held, n);
    assert Readers(held[k := h], n) == if n in h.nodes then s + {k} else s;
    SubsetSize(s, held.Keys);
  }

  /** A successful `try_get_path` leaves all words right for the new set of holders. */
  lemma Acquire(held: Held, words: LockWords, k: Token, h: Hold)
    requires WordsOk(held, words) && k !in held && |held| + 1 < INT_MAX
    requires forall n | n in h.nodes :: n in words && words[n] >= 0
    requires h.wnode.Some? ==> h.wnode.value in words && words[h.wnode.value] == 0 && h.wnode.value !in h.nodes
    ensures WordsOk(held[k := h], Raised(WithWord(words, h.wnode, TREELOCK_WRITE), h.nodes))
  {
    var held', words' := held[k := h], Raised(WithWord(words, h.wnode, TREELOCK_WRITE), h.nodes);
    forall n | n in words' ensures WordOk(held', words'[n], n) {
      ReadersAdd(held, k, h, n);
      assert WordOk(held, words[n], n);
      assert forall j :: Writes(held', j, n) <==> Writes(held, j, n) || (j == k && h.wnode == Some(n));
      if h.wnode == Some(n) {
        assert Writes(held', k, n);
      } else if exists j :: Writes(held, j, n) {
        var j :| Writes(held, j, n);
        assert Writes(held', j, n);
      }
    }
  }

  /** `unlock_path` for a holder: no assertion fails and all words are right without it. */
  lemma Release(held: Held, words: LockWords, k: Token)
    requires WordsOk(held, words) && k in held
    requires forall n | n in held[k].nodes :: n in words
    requires held[k].wnode.Some? ==> held[k].wnode.value in words
    ensures forall n | n in held[k].nodes :: Releasable(words[n]) && held[k].wnode != Some(n)
    ensures held[k].wnode.Some? ==> words[held[k].wnode.value] == TREELOCK_WRITE
    ensures WordsOk(held - {k}, Lowered(WithWord(words, held[k].wnode, 0), held[k].nodes))
  {
    var h, held' := held[k], held - {k};
    var words' := Lowered(WithWord(words, h.wnode, 0), h.nodes);
    assert held == held'[k := h];
    forall n | n in words ensures WordOk(held', words'[n], n)
      ensures n in h.nodes ==> Releasable(words[n]) && h.wnode != Some(n)
      ensures h.wnode == Some(n) ==> words[n] == TREELOCK_WRITE
    {
      ReadersAdd(held', k, h, n);
      assert WordOk(held, words[n], n);
      assert Writes(held, k, n) <==> h.wnode == Some(n);
      assert forall j :: Writes(held', j, n) <==> Writes(held, j, n) && j != k;
      assert |Readers(held, n)| <= |held| by {
        SubsetSize(Readers(held, n), held.Keys);
      }
    }
    SubsetSize(held'.Keys, held.Keys);
  }

  lemma LoweredKeys(words: LockWords, w: Option<nat>, nodes: seq<nat>)
    ensures w.Some? ==> w.value in words ==> Lowered(WithWord(words, w, 0), nodes).Keys == words.Keys
    ensures w.None? ==> Lowered(WithWord(words, w, 0), nodes).Keys == words.Keys
  {
  }

  /** A writer that finds readers leaves its mark on the word. */
  lemma MarkWaiting(held: Held, words: LockWords, n: nat)
    requires WordsOk(held, words) && n in words && words[n] > 0
    ensures WordsOk(held, words[n := words[n] + TREELOCK_WAIT_OFFSET])
  {
    assert WordOk(held, words[n], n);
    SubsetSize(Readers(held, n), held.Keys);
  }

  /** What `unlock_path` does with the locks of one path. */
  ghost function Freed(l: Locks, k: Token): Locks {
    if k in l.held then
      Locks(l.held - {k}, Lowered(WithWord(l.words, l.held[k].wnode, 0), l.held[k].nodes))
    else l
  }

  /** The mark of a waiting writer outlasts every reader but the last: it goes with that one. */
  lemma MarkOutlasts(l: Locks, k: Token, n: nat)
    requires WordsOk(l.held, l.words) && k in l.held && n in l.held[k].nodes && n in l.words && l.words[n] < 0
    requires l.held[k].wnode.Some? ==> l.held[k].wnode.value in l.words
    requires forall m | m in l.held[k].nodes :: m in l.words
    ensures n in Freed(l, k).words
    ensures if Readers(l.held, n) == {k} then Freed(l, k).words[n] == 0
            else Freed(l, k).words[n] < 0 && Freed(l, k).words[n] == l.words[n] - 1
  {
    Release(l.held, l.words, k);
    assert WordOk(l.held, l.words[n], n);
    var readers := Readers(l.held, n);
    assert k in readers;
    SubsetSize(readers, l.held.Keys);
    if readers != {k} {
      var other :| other in readers && other != k;
      SubsetSize({k, other}, readers);
    }
  }

  // ---------- changing the tree under held paths ----------

  /** A path stays as it was locked if the changed node is not on it. */
  lemma StillThereAvoids(t: Tree, t': Tree, n: nat, h: Hold)
    requires StillThere(t, h) && n !in h.nodes && n != ROOT && OnlyChanges(t, t', n)
    ensures StillThere(t', h)
  {
    ClimbAvoids(t, t', n, h.nodeid, h.nodes + [ROOT]);
    ClimbIn(t, h.nodeid, h.nodes + [ROOT]);
    SpellSame(t, t', h.nodes);
  }

  /** The nodes of a held path are in the tree, and none of them is the root. */
  lemma HeldNodes(t: Tree, h: Hold)
    requires StillThere(t, h)
    ensures forall n | n in h.nodes :: n in t && n != ROOT
  {
    var c := h.nodes + [ROOT];
    ClimbIn(t, h.nodeid, c);
    forall n | n in h.nodes ensures n in t && n != ROOT {
      var i :| 0 <= i < |h.nodes| && h.nodes[i] == n;
      ClimbDistinct(t, h.nodeid, c, i, |h.nodes|);
    }
  }

  /** Unlinking a node leaves every locked path in place if and only if nobody reads through the
      node, which its lock word tells: it is 0 or write-locked. Unlinking a node that others read
      through cuts their chains, and `unlock_path` would then stop below the locks it has to
      release. */
  lemma UnlinkIsSafeWhenUnread(held: Held, t: Tree, words: LockWords, n: nat)
    requires WordsOk(held, words) && HoldsOk(held, t) && n in words && n != ROOT
    ensures HoldsOk(held, t[n := Link(None, None)]) <==> words[n] == 0 || words[n] == TREELOCK_WRITE
  {
    var t' := t[n := Link(None, None)];
    assert WordOk(held, words[n], n);
    SubsetSize(Readers(held, n), held.Keys);
    if words[n] == 0 || words[n] == TREELOCK_WRITE {
      assert Readers(held, n) == {};
      forall k | k in held ensures StillThere(t', held[k]) {
        assert k !in Readers(held, n);
        StillThereAvoids(t, t', n, held[k]);
      }
    } else {
      assert Readers(held, n) != {};
      var k :| k in Readers(held, n);
      var h := held[k];
      var i :| 0 <= i < |h.nodes| && h.nodes[i] == n;
      if HoldsOk(held, t') {
        ClimbSuffix(t', h.nodeid, h.nodes + [ROOT], i);
      }
    }
  }

  /** A word of 0 or -1 means that nobody reads through the node, and 0 that nobody writes it. */
  lemma Unread(held: Held, words: LockWords, n: nat)
    requires WordsOk(held, words) && n in words && (words[n] == 0 || words[n] == TREELOCK_WRITE)
    ensures forall k | k in held :: n !in held[k].nodes
    ensures words[n] == 0 ==> forall k | k in held :: held[k].wnode != Some(n)
  {
    assert WordOk(held, words[n], n);
    SubsetSize(Readers(held, n), held.Keys);
    forall k | k in held ensures n !in held[k].nodes && (words[n] == 0 ==> held[k].wnode != Some(n)) {
      assert k !in Readers(held, n);
      assert words[n] == 0 ==> !Writes(held, k, n);
    }
  }

  /** A node that one request has write-locked is read by nobody. */
  lemma Written(held: Held, words: LockWords, k: Token, n: nat)
    requires WordsOk(held, words) && Writes(held, k, n) && n in words
    ensures words[n] == TREELOCK_WRITE && forall j | j in held :: n !in held[j].nodes
  {
    assert WordOk(held, words[n], n);
    forall j | j in held ensures n !in held[j].nodes {
      assert j !in Readers(held, n);
    }
  }

  /** A request that has write-locked the node to be moved and locked the path of the new directory
      cannot close a cycle: the node is not on the way up from there. So a rename of a directory
      into its own subtree never gets its locks. */
  lemma RenameIsSafe(held: Held, t: Tree, words: LockWords, id: nat, n: nat)
    requires WordsOk(held, words) && HoldsOk(held, t) && words.Keys == t.Keys
    requires Writes(held, (id, 1), n) && (id, 2) in held && n in t && n != ROOT
    ensures words[n] == TREELOCK_WRITE
    ensures var h := held[(id, 2)]; Climb(t, h.nodeid, h.nodes + [ROOT]) && n !in h.nodes + [ROOT]
    ensures forall newname | Linked(t) && Acyclic(t) :: Acyclic(Moved(t, n, held[(id, 2)].nodeid, newname))
  {
    hide WordsOk, Climb, Linked, Acyclic, Spell, Moved;
    Written(held, words, (id, 1), n);
    var h := held[(id, 2)];
    forall newname | Linked(t) && Acyclic(t) ensures Acyclic(Moved(t, n, h.nodeid, newname)) {
      MoveKeepsAcyclic(t, n, h.nodeid, newname, h.nodes + [ROOT]);
    }
  }

  /** Every locked path survives a change of a node that nobody reads through. */
  lemma HoldsKept(held: Held, t: Tree, t': Tree, n: nat)
    requires HoldsOk(held, t) && n != ROOT && OnlyChanges(t, t', n)
    requires forall k | k in held :: n !in held[k].nodes
    requires n in t' || forall k | k in held :: held[k].wnode != Some(n)
    ensures HoldsOk(held, t')
  {
    forall k | k in held ensures StillThere(t', held[k]) {
      StillThereAvoids(t, t', n, held[k]);
    }
  }

  /** The holders of the write lock of `n` have moved it. */
  ghost function AfterMove(held: Held, n: nat): Held {
    map k | k in held :: if held[k].wnode == Some(n) then held[k].(moved := true) else held[k]
  }

  lemma AfterMoveKeeps(held: Held, t: Tree, words: LockWords, n: nat)
    ensures WordsOk(held, words) ==> WordsOk(AfterMove(held, n), words)
    ensures HoldsOk(held, t) <==> HoldsOk(AfterMove(held, n), t)
  {
    var held' := AfterMove(held, n);
    assert held'.Keys == held.Keys;
    forall m | m in words && WordOk(held, words[m], m) ensures WordOk(held', words[m], m) {
      assert Readers(held', m) == Readers(held, m);
      assert forall k :: Writes(held', k, m) <==> Writes(held, k, m);
    }
    if HoldsOk(held', t) {
      assert forall k | k in held :: held'[k].wnode == held[k].wnode && StillThere(t, held'[k]);
    }
  }

  /** Once the holders have moved the node, nothing is promised about its name. */
  lemma AnchoredMove(held: Held, t: Tree, t': Tree, n: nat)
    requires Anchored(held, t) && OnlyChanges(t, t', n)
    ensures Anchored(AfterMove(held, n), t')
  {
  }

  /** `k` has locked the node that is now behind the name, or a name without a node; then a node that has
      come there since must be unlocked. */
  ghost predicate LockedName(l: Locks, index: Index, k: Token, dir: nat, name: string) {
    k in l.held && l.held[k].nodeid == dir && l.held[k].name == Some(name) && !l.held[k].moved &&
    (l.held[k].wnode.None? && (dir, name) in index ==>
       index[(dir, name)] in l.words && l.words[index[(dir, name)]] == 0)
  }

  /** The node that is now behind the name of a locked path: it is the write-locked one, or nobody
      has it. So nobody reads through it, and nobody else writes it. */
  lemma LockedNode(held: Held, t: Tree, index: Index, words: LockWords, k: Token, dir: nat, name: string)
    requires TreeOk(t, index, words) && WordsOk(held, words) && Anchored(held, t) && k in held && (dir, name) in index
    requires held[k].nodeid == dir && held[k].name == Some(name) && !held[k].moved
    requires var n := index[(dir, name)]; held[k].wnode.None? ==> n in words && words[n] == 0
    ensures var n := index[(dir, name)];
      && n in words && words[n] == (if held[k].wnode.Some? then TREELOCK_WRITE else 0)
      && (held[k].wnode.Some? ==> held[k].wnode == Some(n))
      && (forall j | j in held && held[j].wnode == Some(n) :: j == k)
      && (forall j | j in held :: n !in held[j].nodes)
  {
    var n := index[(dir, name)];
    if held[k].wnode.Some? {
      assert held[k].wnode == Some(n);
      assert Writes(held, k, n);
      Written(held, words, k, n);
      assert WordOk(held, words[n], n);
    } else {
      Unread(held, words, n);
    }
    assert forall j | j in held && held[j].wnode == Some(n) :: Writes(held, j, n);
  }

  /** A node that nobody reads through is on no way up that is locked. */
  lemma NotOnTheWay(held: Held, t: Tree, words: LockWords, k: Token, n: nat)
    requires HoldsOk(held, t) && k in held && n != ROOT && n !in held[k].nodes
    ensures Climb(t, held[k].nodeid, held[k].nodes + [ROOT]) && n !in held[k].nodes + [ROOT]
  {
  }

  /** The same locks, whether moved or not. */
  ghost predicate SameHolds(held: Held, held': Held) {
    held'.Keys == held.Keys && forall k | k in held :: held'[k].(moved := false) == held[k].(moved := false)
  }

  lemma RenamesNothing(t: Tree, held: Held, id: nat, m: Option<nat>, newdir: nat, newname: string)
    ensures SameOthers(held, held, id) && SameHolds(held, held) && Renamed(t, None, m, newdir, newname) == t
  {
  }

  lemma AfterMoveTwice(held: Held, m: Option<nat>, n: nat, id: nat)
    requires forall k | k in held && (held[k].wnode == Some(n) || (m.Some? && held[k].wnode == m)) :: k.0 == id
    ensures m.Some? ==> forall k | k in AfterMove(held, m.value) && AfterMove(held, m.value)[k].wnode == Some(n) ::
        k.0 == id
    ensures var held' := AfterMove(if m.Some? then AfterMove(held, m.value) else held, n);
      SameOthers(held, held', id) && SameHolds(held, held') && (m == Some(n) ==> held' == AfterMove(held, n))
  {
  }

  /** Whoever has write-locked a node without a name has moved it. */
  lemma Nameless(held: Held, t: Tree, n: nat)
    requires Anchored(held, t) && n in t && t[n].parent == None
    ensures forall k | k in held && held[k].wnode == Some(n) :: held[k].moved
  {
  }

  lemma AnchoredKept(held: Held, t: Tree, t': Tree, n: nat)
    requires Anchored(held, t) && OnlyChanges(t, t', n)
    requires forall k | k in held && held[k].wnode == Some(n) :: held[k].moved
    ensures Anchored(held, t')
  {
  }

  /** A new node is nobody's. */
  lemma NewIsUnread(held: Held, t: Tree, words: LockWords, n: nat)
    requires WordsOk(held, words) && HoldsOk(held, t) && n !in t
    ensures WordsOk(held, words[n := 0]) && forall k | k in held :: n !in held[k].nodes && held[k].wnode != Some(n)
  {
    forall k | k in held ensures n !in held[k].nodes && held[k].wnode != Some(n) {
      HeldNodes(t, held[k]);
    }
    assert Readers(held, n) == {};
    assert forall k :: !Writes(held, k, n);
  }

  // ---------- the wait queue ----------

  /** One path that a request asks for. */
  datatype Request = Request(nodeid: nat, name: Option<string>, write: bool)

  /** `struct lock_queue_element`. A forget only waits for its node to be unlocked. */
  datatype Waiter =
    | PathWaiter(id: nat, path1: Request, path2: Option<Request>, first_locked: bool, second_locked: bool,
                 wnode1: Option<nat>, wnode2: Option<nat>, done: bool, err: Status)
    | ForgetWaiter(id: nat, nodeid1: nat)

  ghost predicate Matches(held: Held, k: Token, locked: bool, r: Request, wnode: Option<nat>) {
    (locked <==> k in held) &&
    (locked ==> held[k].nodeid == r.nodeid && held[k].name == r.name && held[k].wnode == wnode && !held[k].moved)
  }

  function TargetOf(index: Index, r: Request): Option<nat> {
    if r.write && r.name.Some? && (r.nodeid, r.name.value) in index then Some(index[(r.nodeid, r.name.value)]) else None
  }

  /** `try_get_path` can lock the path of the request, memory permitting. */
  ghost predicate Open(t: Tree, index: Index, words: LockWords, r: Request) {
    Lockable(t, words, r.nodeid, TargetOf(index, r))
  }

  ghost predicate Reachable(t: Tree, n: nat) {
    exists c :: Attached(t, n, c)
  }

  /** Below its top the climb meets a node that a writer has or waits for. */
  predicate Barred(words: LockWords, c: seq<nat>) {
    exists i :: 0 <= i < |c| - 1 && c[i] in words && words[c[i]] < 0
  }

  /** `try_get_path` has to wait: the node to write-lock is taken, or the way up is, be it to the root or
      to where it is cut off. */
  ghost predicate Busy(t: Tree, index: Index, words: LockWords, r: Request) {
    var w := TargetOf(index, r);
    (w.Some? && w.value in words && words[w.value] != 0) || exists c :: Climb(t, r.nodeid, c) && Barred(words, c)
  }

  /** What `try_get_path` does for the path `r` of the holder `k`. It locks the whole way up and the
      node with the name exactly if the path is open, it has to wait exactly if the path is busy, and
      otherwise the directory is cut off; only a failed allocation is an excuse. On failure no lock is
      kept, but a writer that found readers has left its mark. */
  ghost predicate Attempt(t: Tree, index: Index, k: Token, r: Request, l: Locks, err: Status, l': Locks) {
    (err == Ok ==>
      && Open(t, index, l.words, r)
      && k in l'.held
      && (var h := l'.held[k];
          && h == Hold(r.nodeid, r.name, h.path, TargetOf(index, r), h.nodes, false)
          && StillThere(t, h)
          && l' == Locks(l.held[k := h], Raised(WithWord(l.words, h.wnode, TREELOCK_WRITE), h.nodes)))) &&
    (err != Ok ==> l' == Locks(l.held, Marked(l.words, TargetOf(index, r), err))) &&
    (err == Again ==> Busy(t, index, l.words, r) && !Open(t, index, l.words, r)) &&
    (err == NoEntry ==> !Busy(t, index, l.words, r) && !Reachable(t, r.nodeid))
  }

  // ---------- a turn of the queue ----------

  /** The two attempts of a waiter's turn: how they ended and the locks after each. An attempt that
      is not needed counts as `Ok`, one that is not made ends as the one before. */
  datatype Turn = Turn(err1: Status, mid: Locks, err2: Status, late: Locks)

  /** The errors that end a waiter's turn at once. */
  predicate Hard(err: Status) {
    err != Ok && err != Again
  }

  /** No allocation failed. */
  predicate Supplied(turn: Turn) {
    turn.err1 != NoMemory && turn.err2 != NoMemory
  }

  ghost predicate Attempts(t: Tree, index: Index, q: Waiter, l: Locks, turn: Turn)
    requires q.PathWaiter?
  {
    (if q.first_locked then turn.err1 == Ok && turn.mid == l
     else Attempt(t, index, (q.id, 1), q.path1, l, turn.err1, turn.mid)) &&
    (if Hard(turn.err1) then turn.err2 == turn.err1 && turn.late == turn.mid
     else if q.second_locked || q.path2.None? then turn.err2 == Ok && turn.late == turn.mid
     else Attempt(t, index, (q.id, 2), q.path2.value, turn.mid, turn.err2, turn.late))
  }

  /** The element with the locks that its attempts have got. */
  function Tried(index: Index, q: Waiter, turn: Turn): Waiter
    requires q.PathWaiter?
  {
    var one := if q.first_locked || turn.err1 != Ok then q
               else q.(first_locked := true, wnode1 := TargetOf(index, q.path1));
    if q.second_locked || q.path2.None? || turn.err2 != Ok then one
    else one.(second_locked := true, wnode2 := TargetOf(index, q.path2.value))
  }

  /** What `queue_element_wakeup` does for an element that waits for paths: it ends with an error, or
      with all its locks; if it goes on waiting, only the first of the queue keeps what it got. */
  ghost predicate Turned(t: Tree, index: Index, q: Waiter, first: bool, l: Locks, turn: Turn, qe: Waiter, l': Locks)
    requires q.PathWaiter?
  {
    var got := Tried(index, q, turn);
    var none := got.(first_locked := false, second_locked := false);
    var back := Freed(Freed(turn.late, (q.id, 1)), (q.id, 2));
    Attempts(t, index, q, l, turn) &&
    if Hard(turn.err2) then qe == none.(err := turn.err2, done := true) && l' == back
    else if turn.err1 == Ok && turn.err2 == Ok then qe == got.(err := Ok, done := true) && l' == turn.late
    else if first then qe == got && l' == turn.late
    else qe == none && l' == back
  }

  /** The same for every element: a forget only waits. */
  ghost predicate Woken(t: Tree, index: Index, q: Waiter, first: bool, l: Locks, turn: Turn, qe: Waiter, l': Locks) {
    if q.PathWaiter? then Turned(t, index, q, first, l, turn, qe, l') else qe == q && l' == l
  }

  /** A pass over the whole queue: the elements after their turns, and the locks before the first
      turn and after each. */
  datatype Pass = Pass(turns: seq<Turn>, tried: seq<Waiter>, locks: seq<Locks>)

  ghost predicate PassUpTo(t: Tree, index: Index, lockq: seq<Waiter>, l: Locks, pass: Pass, n: nat, l': Locks) {
    n == |pass.turns| == |pass.tried| <= |lockq| && |pass.locks| == n + 1 && pass.locks[0] == l &&
      pass.locks[n] == l' &&
    forall i | 0 <= i < n ::
      Woken(t, index, lockq[i], i == 0, pass.locks[i], pass.turns[i], pass.tried[i], pass.locks[i + 1])
  }

  /** What `wake_up_queued` does: every waiter gets its turn, in order, and those that failed leave. */
  ghost predicate Passed(t: Tree, index: Index, lockq: seq<Waiter>, l: Locks, pass: Pass, lockq': seq<Waiter>,
                         l': Locks) {
    PassUpTo(t, index, lockq, l, pass, |lockq|, l') && lockq' == Pruned(pass.tried)
  }

  function Longer(pass: Pass, turn: Turn, qe: Waiter, l: Locks): Pass {
    Pass(pass.turns + [turn], pass.tried + [qe], pass.locks + [l])
  }

  lemma LongerTurns(pass: Pass, turn: Turn, qe: Waiter, l: Locks)
    ensures forall u :: u in Longer(pass, turn, qe, l).turns <==> u in pass.turns || u == turn
  {
  }

  lemma PassStarts(t: Tree, index: Index, lockq: seq<Waiter>, l: Locks)
    ensures PassUpTo(t, index, lockq, l, Pass([], [], [l]), 0, l)
  {
  }

  lemma PassLonger(t: Tree, index: Index, lockq: seq<Waiter>, l: Locks, pass: Pass, n: nat, was: Locks, turn: Turn,
                   qe: Waiter, l': Locks)
    requires PassUpTo(t, index, lockq, l, pass, n, was) && n < |lockq|
    requires Woken(t, index, lockq[n], n == 0, was, turn, qe, l')
    ensures PassUpTo(t, index, lockq, l, Longer(pass, turn, qe, l'), n + 1, l')
  {
  }

  /** The queue after i turns of a pass */
  ghost predicate Halfway(lockq: seq<Waiter>, lockq': seq<Waiter>, i: nat, pass: Pass) {
    i <= |lockq'| == |lockq| && |pass.tried| == i && lockq' == pass.tried + lockq[i..] &&
    forall q | q in lockq :: !Failed(q)
  }

  lemma AtStart(lockq: seq<Waiter>, pass: Pass)
    requires pass.tried == [] && forall q | q in lockq :: !Failed(q)
    ensures Halfway(lockq, lockq, 0, pass)
  {
  }

  lemma Onwards(lockq: seq<Waiter>, lockq': seq<Waiter>, i: nat, pass: Pass)
    requires Halfway(lockq, lockq', i, pass) && i < |lockq'|
    ensures i < |lockq| == |lockq'| && lockq'[i] == lockq[i] && !Failed(lockq'[i])
  {
    assert lockq[i] in lockq;
  }

  lemma TurnOver(lockq: seq<Waiter>, lockq': seq<Waiter>, i: nat, pass: Pass, turn: Turn, qe: Waiter, l: Locks)
    requires Halfway(lockq, lockq', i, pass) && i < |lockq'|
    ensures Halfway(lockq, lockq'[i := qe], i + 1, Longer(pass, turn, qe, l))
  {
  }

  lemma AllOver(t: Tree, index: Index, lockq: seq<Waiter>, l: Locks, lockq': seq<Waiter>, i: nat, pass: Pass, l': Locks)
    requires Halfway(lockq, lockq', i, pass) && i >= |lockq'| && PassUpTo(t, index, lockq, l, pass, i, l')
    ensures Passed(t, index, lockq, l, pass, Pruned(lockq'), l')
  {
    assert lockq' == pass.tried;
  }

  predicate Absent(lockq: seq<Waiter>, id: nat) {
    forall q | q in lockq :: q.id != id
  }

  /** The holders that are not in the queue. */
  ghost predicate Undisturbed(lockq: seq<Waiter>, held: Held, held': Held) {
    forall k: Token | Absent(lockq, k.0) :: (k in held <==> k in held') && (k in held ==> held'[k] == held[k])
  }

  /** The same element, with other locks. */
  predicate SameRequest(q: Waiter, q': Waiter) {
    if q.ForgetWaiter? then q' == q
    else q'.PathWaiter? && q'.id == q.id && q'.path1 == q.path1 && q'.path2 == q.path2
  }

  lemma Nothing(lockq: seq<Waiter>, held: Held)
    ensures Undisturbed(lockq, held, held)
  {
  }

  lemma OneMore(lockq: seq<Waiter>, i: nat, a: Held, b: Held, c: Held)
    requires i < |lockq| && Undisturbed(lockq, a, b) && SameOthers(b, c, lockq[i].id)
    ensures Undisturbed(lockq, a, c)
  {
  }

  /** What holds of the locks of a successful attempt. */
  lemma Granted(t: Tree, index: Index, k: Token, r: Request, l: Locks, l': Locks)
    requires TreeOk(t, index, l.words) && Attempt(t, index, k, r, l, Ok, l')
    ensures k in l'.held
    ensures var h := l'.held[k];
      && l' == Locks(l.held[k := h], Raised(WithWord(l.words, h.wnode, TREELOCK_WRITE), h.nodes))
      && Climb(t, r.nodeid, h.nodes + [ROOT])
      && (forall n | n in h.nodes :: n in l.words && l.words[n] >= 0 && h.wnode != Some(n))
      && (h.wnode.Some? ==> h.wnode.value in l.words && l.words[h.wnode.value] == 0)
  {
    var nodes, w := l'.held[k].nodes, TargetOf(index, r);
    assert StillThere(t, l'.held[k]) && Lockable(t, l.words, r.nodeid, w);
    var c :| Attached(t, r.nodeid, c) && Free(l.words, c);
    ClimbUnique(t, r.nodeid, c, nodes + [ROOT]);
    assert forall i | 0 <= i < |nodes| :: c[i] == nodes[i];
    TargetAside(t, index, r.nodeid, w, r.name.GetOr(""), c);
    assert forall n | n in nodes :: n in c;
  }

  /** Giving back the way `nodes` and the written node `w`, after a second attempt that may have
      marked the node `v` */
  lemma LowerMarked(words: LockWords, w: Option<nat>, nodes: seq<nat>, v: Option<nat>, err: Status)
    requires w.Some? ==> w.value in words && words[w.value] == 0 && w.value !in nodes
    requires forall n | n in nodes :: n in words && words[n] >= 0
    ensures Lowered(WithWord(Marked(Raised(WithWord(words, w, TREELOCK_WRITE), nodes), v, err), w, 0), nodes) ==
            Marked(words, v, err)
  {
  }

  /** The first path is given back after the second could not be locked: that leaves the mark of the
      second attempt, but not if the mark only counted the reader that is now gone. */
  lemma BackToMarks(t: Tree, index: Index, k: Token, r: Request, l: Locks, mid: Locks, w: Option<nat>, err: Status)
    requires TreeOk(t, index, l.words) && k !in l.held && Attempt(t, index, k, r, l, Ok, mid)
    ensures Freed(Locks(mid.held, Marked(mid.words, w, err)), k) == Locks(l.held, Marked(l.words, w, err))
  {
    Granted(t, index, k, r, l, mid);
    hide TreeOk, StillThere, Climb, Lowered, Raised, Marked, WithWord;
    LowerMarked(l.words, mid.held[k].wnode, mid.held[k].nodes, w, err);
    assert mid.held - {k} == l.held;
  }

  /** Two paths that were locked one after the other and are given back in the same order. */
  lemma LowerBoth(words: LockWords, w1: Option<nat>, n1: seq<nat>, w2: Option<nat>, n2: seq<nat>)
    requires w1.Some? ==> w1.value in words && words[w1.value] == 0 && w1.value !in n1
    requires forall n | n in n1 :: n in words && words[n] >= 0
    requires var mid := Raised(WithWord(words, w1, TREELOCK_WRITE), n1);
      && (w2.Some? ==> w2.value in mid && mid[w2.value] == 0 && w2.value !in n2)
      && (forall n | n in n2 :: n in mid && mid[n] >= 0)
    ensures var late := Raised(WithWord(Raised(WithWord(words, w1, TREELOCK_WRITE), n1), w2, TREELOCK_WRITE), n2);
      Lowered(WithWord(Lowered(WithWord(late, w1, 0), n1), w2, 0), n2) == words
  {
  }

  /** A request for two paths gives back exactly what it took, whatever became of its nodes. */
  lemma GivenBack(t: Tree, index: Index, id: nat, r1: Request, r2: Request, l: Locks, mid: Locks, late: Locks,
                  held: Held)
    requires TreeOk(t, index, l.words) && (id, 1) !in l.held && (id, 2) !in l.held
    requires Attempt(t, index, (id, 1), r1, l, Ok, mid) && Attempt(t, index, (id, 2), r2, mid, Ok, late)
    requires SameOthers(late.held, held, id) && SameHolds(late.held, held)
    ensures Freed(Freed(Locks(held, late.words), (id, 1)), (id, 2)) == l
  {
    hide TreeOk, Attempt, Climb, Lowered, Raised, Marked, WithWord;
    Granted(t, index, (id, 1), r1, l, mid);
    RaisedKeys(t, index, l.words, mid.held[(id, 1)].wnode, mid.held[(id, 1)].nodes);
    Granted(t, index, (id, 2), r2, mid, late);
    var h1, h2 := mid.held[(id, 1)], late.held[(id, 2)];
    LowerBoth(l.words, h1.wnode, h1.nodes, h2.wnode, h2.nodes);
    LessBoth(l.held, id, h1, h2, held);
  }

  lemma RaisedKeys(t: Tree, index: Index, words: LockWords, w: Option<nat>, nodes: seq<nat>)
    requires TreeOk(t, index, words) && (w.Some? ==> w.value in words)
    ensures TreeOk(t, index, Raised(WithWord(words, w, TREELOCK_WRITE), nodes))
  {
  }

  lemma LessBoth(was: Held, id: nat, h1: Hold, h2: Hold, held: Held)
    requires (id, 1) !in was && (id, 2) !in was
    requires SameOthers(was[(id, 1) := h1][(id, 2) := h2], held, id)
    requires SameHolds(was[(id, 1) := h1][(id, 2) := h2], held)
    ensures held - {(id, 1)} - {(id, 2)} == was
    ensures (id, 1) in held && (id, 2) in held
    ensures held[(id, 1)].wnode == h1.wnode && held[(id, 1)].nodes == h1.nodes
    ensures held[(id, 2)].wnode == h2.wnode && held[(id, 2)].nodes == h2.nodes
  {
    var less, both := held - {(id, 1)} - {(id, 2)}, was[(id, 1) := h1][(id, 2) := h2];
    assert both.Keys == was.Keys + {(id, 1), (id, 2)};
    forall k | k in was ensures k in less && less[k] == was[k] {
      assert k.0 != id && both[k] == was[k];
    }
    assert less.Keys == was.Keys;
  }

  lemma FreedAt(l: Locks, k: Token)
    ensures Freed(l, k).held == l.held - {k} && (k !in l.held ==> Freed(l, k) == l)
    ensures |Freed(l, k).held| <= |l.held| && SameOthers(l.held, Freed(l, k).held, k.0)
  {
    SubsetSize((l.held - {k}).Keys, l.held.Keys);
  }

  lemma FreedBoth(l: Locks, id: nat)
    ensures var one := Freed(l, (id, 1)); var both := Freed(one, (id, 2));
      && SameOthers(l.held, both.held, id) && |both.held| <= |l.held|
      && (id, 1) !in both.held && (id, 2) !in both.held
      && ((id, 1) !in l.held ==> one == l) && ((id, 2) !in one.held ==> both == one)
      && ((id, 2) in l.held ==> (id, 2) in one.held && one.held[(id, 2)] == l.held[(id, 2)])
      && ((id, 2) !in l.held ==> (id, 2) !in one.held)
  {
    var one := Freed(l, (id, 1));
    FreedAt(l, (id, 1));
    FreedAt(one, (id, 2));
    SameTrans(l.held, one.held, Freed(one, (id, 2)).held, id);
  }

  predicate Servable(t: Tree, r: Request) {
    r.nodeid in t && (r.write ==> r.name.Some?)
  }

  /** The element's flags agree with the locks held on its behalf. */
  ghost predicate Flags(q: Waiter, held: Held)
    requires q.PathWaiter?
  {
    Matches(held, (q.id, 1), q.first_locked, q.path1, q.wnode1) &&
    if q.path2.Some? then Matches(held, (q.id, 2), q.second_locked, q.path2.value, q.wnode2)
    else !q.second_locked && (q.id, 2) !in held
  }

  /** The element's flags agree with the locks held on its behalf, and a finished element has all
      of its locks, or none if it failed. */
  ghost predicate WaiterOk(q: Waiter, held: Held, t: Tree) {
    match q
    case ForgetWaiter(id, nodeid1) => nodeid1 in t && (id, 1) !in held && (id, 2) !in held
    case PathWaiter(id, path1, path2, first_locked, second_locked, wnode1, wnode2, done, err) =>
      && Servable(t, path1)
      && (path2.Some? ==> Servable(t, path2.value))
      && Flags(q, held)
      && (done && err == Ok ==> first_locked && (path2.Some? ==> second_locked))
      && (done && err != Ok ==> !first_locked && !second_locked)
  }

  predicate Failed(q: Waiter) {
    q.PathWaiter? && q.done && q.err != Ok
  }

  /** An unfinished element without any lock. */
  predicate Idle(q: Waiter) {
    q.PathWaiter? && !q.done ==> !q.first_locked && !q.second_locked
  }

  ghost predicate QueueOk(lockq: seq<Waiter>, held: Held, t: Tree) {
    (forall i | 0 <= i < |lockq| :: WaiterOk(lockq[i], held, t)) &&
    (forall i | 0 < i < |lockq| :: Idle(lockq[i])) &&
    forall i, j | 0 <= i < j < |lockq| :: lockq[i].id != lockq[j].id
  }

  /** At most one waiter is partly locked, and it is the head of the queue: nobody else can wait
      for a lock while holding one. */
  lemma OnePartlyLocked(lockq: seq<Waiter>, held: Held, t: Tree, i: nat, k: Token)
    requires QueueOk(lockq, held, t) && i < |lockq|
    requires lockq[i].PathWaiter? && !lockq[i].done && k in held && k.0 == lockq[i].id && (k.1 == 1 || k.1 == 2)
    ensures i == 0
  {
    assert WaiterOk(lockq[i], held, t) && k == (k.0, k.1);
  }

  /** The holds of all other requests. */
  ghost predicate SameOthers(held: Held, held': Held, id: nat) {
    forall k: Token | k.0 != id :: (k in held <==> k in held') && (k in held ==> held'[k] == held[k])
  }

  lemma QueueAt(lockq: seq<Waiter>, held: Held, t: Tree, i: nat)
    requires QueueOk(lockq, held, t) && i < |lockq|
    ensures WaiterOk(lockq[i], held, t)
  {
  }

  lemma SameSelf(held: Held, id: nat)
    ensures SameOthers(held, held, id)
  {
  }

  lemma SameTrans(a: Held, b: Held, c: Held, id: nat)
    requires SameOthers(a, b, id) && SameOthers(b, c, id)
    ensures SameOthers(a, c, id)
  {
  }

  /** The flags say nothing about how an element ended. */
  lemma FlagsKept(q: Waiter, q': Waiter, held: Held)
    requires q.PathWaiter? && q'.PathWaiter? && Flags(q, held) && q' == q.(err := q'.err, done := q'.done)
    ensures Flags(q', held)
  {
  }

  lemma QueueUpdate(lockq: seq<Waiter>, held: Held, t: Tree, i: nat, q: Waiter, held': Held)
    requires QueueOk(lockq, held, t) && i < |lockq| && q.id == lockq[i].id
    requires WaiterOk(q, held', t) && SameOthers(held, held', q.id) && (i > 0 ==> Idle(q))
    ensures QueueOk(lockq[i := q], held', t)
  {
    forall j | 0 <= j < |lockq| && j != i ensures WaiterOk(lockq[j], held', t) {
      var id := lockq[j].id;
      assert id != q.id;
      assert WaiterOk(lockq[j], held, t) && (id, 1).0 != q.id && (id, 2).0 != q.id;
    }
  }

  /** A request as `get_path_common` and `get_path2` queue it. */
  function Waiting(id: nat, r1: Request, r2: Option<Request>): Waiter {
    PathWaiter(id, r1, r2, false, false, None, None, false, Ok)
  }

  lemma QueueAppend(lockq: seq<Waiter>, held: Held, t: Tree, q: Waiter)
    requires QueueOk(lockq, held, t) && WaiterOk(q, held, t) && Idle(q) && forall p | p in lockq :: p.id != q.id
    ensures QueueOk(lockq + [q], held, t)
  {
    assert forall i | 0 <= i < |lockq| :: lockq[i] in lockq;
  }

  lemma QueueRemove(lockq: seq<Waiter>, held: Held, t: Tree, i: nat)
    requires QueueOk(lockq, held, t) && i < |lockq|
    ensures QueueOk(lockq[..i] + lockq[i + 1..], held, t)
  {
    var p := lockq[..i] + lockq[i + 1..];
    assert forall j | 0 <= j < |p| :: p[j] == lockq[if j < i then j else j + 1];
  }

  /** Locks of a request that is not queued are none of the queue's business. */
  lemma QueueOthers(lockq: seq<Waiter>, held: Held, held': Held, t: Tree, id: nat)
    requires QueueOk(lockq, held, t) && SameOthers(held, held', id) && Absent(lockq, id)
    ensures QueueOk(lockq, held', t)
  {
    forall j | 0 <= j < |lockq| ensures WaiterOk(lockq[j], held', t) {
      assert lockq[j] in lockq && WaiterOk(lockq[j], held, t);
      assert (lockq[j].id, 1).0 != id && (lockq[j].id, 2).0 != id;
    }
  }

  /** The waiter names the node in its request. */
  predicate Names(q: Waiter, n: nat) {
    match q
    case ForgetWaiter(_, nodeid1) => nodeid1 == n
    case PathWaiter(_, path1, path2, _, _, _, _, _, _) => path1.nodeid == n || (path2.Some? && path2.value.nodeid == n)
  }

  lemma QueueTree(lockq: seq<Waiter>, held: Held, t: Tree, t': Tree)
    requires QueueOk(lockq, held, t)
    requires forall n | n in t && n !in t' :: forall q | q in lockq :: !Names(q, n)
    ensures QueueOk(lockq, held, t')
  {
    forall j | 0 <= j < |lockq| ensures WaiterOk(lockq[j], held, t') {
      assert lockq[j] in lockq && WaiterOk(lockq[j], held, t);
    }
  }

  /** Finished elements that failed leave the queue. */
  function Pruned(lockq: seq<Waiter>): seq<Waiter> {
    if lockq == [] then []
    else
      var q := lockq[0];
      (if Failed(q) then [] else [q]) + Pruned(lockq[1..])
  }

  lemma {:induction false} PrunedOk(lockq: seq<Waiter>, held: Held, t: Tree)
    requires QueueOk(lockq, held, t)
    ensures QueueOk(Pruned(lockq), held, t)
    ensures forall q :: q in Pruned(lockq) <==> q in lockq && !Failed(q)
    ensures |Pruned(lockq)| <= |lockq|
  {
    if lockq != [] {
      var rest := lockq[1..];
      PrunedOk(rest, held, t);
      var p := Pruned(rest);
      forall i | 0 <= i < |p| ensures Idle(p[i]) && p[i].id != lockq[0].id {
        assert p[i] in rest;
        var j :| 0 <= j < |rest| && rest[j] == p[i];
        assert lockq[j + 1] == p[i];
      }
    }
  }

  /** The queue holds locks only for nodes that have not been moved. */
  lemma QueueMove(lockq: seq<Waiter>, held: Held, t: Tree, n: nat)
    requires QueueOk(lockq, held, t) && forall k | k in held && held[k].wnode == Some(n) :: Absent(lockq, k.0)
    ensures QueueOk(lockq, AfterMove(held, n), t)
  {
    forall j | 0 <= j < |lockq| ensures WaiterOk(lockq[j], AfterMove(held, n), t) {
      var q := lockq[j];
      assert q in lockq && WaiterOk(q, held, t) && (q.id, 1).0 == (q.id, 2).0 == q.id;
    }
  }

  /** The index after `n` has taken the name from `m`: it was under `other` or it is `m` itself. */
  lemma TakesName(index: Index, key: (nat, string), other: (nat, string), m: Option<nat>, n: nat)
    requires if m.Some? then key !in index && (m.value == n <==> key == other) else key !in index
    ensures (if m == Some(n) then index else index - {other})[key := n] == (index - {key, other})[key := n]
  {
  }

  /** `rename_node`: `m`, if it is there, loses the name that `n` takes. */
  function Renamed(t: Tree, n: Option<nat>, m: Option<nat>, newdir: nat, newname: string): Tree {
    if n.None? then t
    else Moved(if m.Some? then Unlinked(t, m.value) else t, n.value, newdir, newname)
  }

  lemma {:induction false} PrunedKeeps(lockq: seq<Waiter>)
    ensures forall q :: q in Pruned(lockq) <==> q in lockq && !Failed(q)
    ensures (forall q | q in lockq :: !Failed(q)) ==> Pruned(lockq) == lockq
  {
    if lockq != [] {
      PrunedKeeps(lockq[1..]);
      assert lockq == [lockq[0]] + lockq[1..];
    }
  }

  lemma WokenSame(t: Tree, index: Index, q: Waiter, first: bool, l: Locks, turn: Turn, qe: Waiter, l': Locks)
    requires Woken(t, index, q, first, l, turn, qe, l')
    ensures SameRequest(q, qe)
  {
    hide Attempts, Freed;
  }

  /** How many of the first `n` elements stay in the queue */
  function Staying(lockq: seq<Waiter>, n: nat): nat {
    if n == 0 || lockq == [] then 0 else (if Failed(lockq[0]) then 0 else 1) + Staying(lockq[1..], n - 1)
  }

  /** An element that stays has in front of it those that were in front of it and stay. */
  lemma {:induction false} PrunedPlace(lockq: seq<Waiter>, i: nat)
    requires i <= |lockq|
    ensures Staying(lockq, i) <= |Pruned(lockq)| && (i == |lockq| ==> Staying(lockq, i) == |Pruned(lockq)|)
    ensures i < |lockq| && !Failed(lockq[i]) ==>
      Staying(lockq, i) < |Pruned(lockq)| && Pruned(lockq)[Staying(lockq, i)] == lockq[i]
  {
    hide Failed;
    if i > 0 {
      assert i < |lockq| ==> lockq[1..][i - 1] == lockq[i];
      PrunedPlace(lockq[1..], i - 1);
    }
  }

  /** A pass over the queue keeps every request that did not fail, and the queue as it was ordered. */
  lemma NoWaiterLost(t: Tree, index: Index, lockq: seq<Waiter>, l: Locks, pass: Pass, lockq': seq<Waiter>, l': Locks)
    requires Passed(t, index, lockq, l, pass, lockq', l')
    ensures |pass.tried| == |lockq| && forall i | 0 <= i < |lockq| :: SameRequest(lockq[i], pass.tried[i])
    ensures forall i | 0 <= i < |lockq| :: pass.tried[i] in lockq' <==> !Failed(pass.tried[i])
    ensures forall i | 0 <= i < |lockq| && !Failed(pass.tried[i]) ::
      var place := Staying(pass.tried, i); place < |lockq'| && lockq'[place] == pass.tried[i]
    ensures |lockq'| == Staying(pass.tried, |lockq|)
  {
    hide Woken, SameRequest, Failed, Pruned, Staying;
    PrunedKeeps(pass.tried);
    PrunedPlace(pass.tried, |lockq|);
    forall i | 0 <= i < |lockq| && !Failed(pass.tried[i])
      ensures var place := Staying(pass.tried, i); place < |lockq'| && lockq'[place] == pass.tried[i]
    {
      PrunedPlace(pass.tried, i);
    }
    forall i | 0 <= i < |lockq| ensures SameRequest(lockq[i], pass.tried[i]) {
      WokenSame(t, index, lockq[i], i == 0, pass.locks[i], pass.turns[i], pass.tried[i], pass.locks[i + 1]);
    }
    assert forall i | 0 <= i < |pass.tried| :: pass.tried[i] in pass.tried;
  }

  /** How a waiter's turn ends: it goes on waiting only if a path of its was not open when it was
      tried, and it fails only without memory or if a directory of its is cut off. */
  lemma TurnEnds(t: Tree, index: Index, q: Waiter, first: bool, l: Locks, turn: Turn, qe: Waiter, l': Locks)
    requires q.PathWaiter? && !q.done && Turned(t, index, q, first, l, turn, qe, l')
    ensures !qe.done ==>
      || (!q.first_locked && Busy(t, index, l.words, q.path1))
      || (q.path2.Some? && !q.second_locked && Busy(t, index, turn.mid.words, q.path2.value))
    ensures first && !qe.done ==>
      && l' == turn.late
      && (qe.first_locked <==> q.first_locked || turn.err1 == Ok)
      && (qe.second_locked <==> q.second_locked || (q.path2.Some? && turn.err2 == Ok))
    ensures !first && !qe.done ==> !qe.first_locked && !qe.second_locked
    ensures Failed(qe) ==> (qe.err == NoMemory || qe.err == NoEntry) && !qe.first_locked && !qe.second_locked
    ensures qe.done && qe.err == NoEntry ==>
      || (!q.first_locked && CutOff(t, index, l.words, q.path1))
      || (q.path2.Some? && !q.second_locked && CutOff(t, index, turn.mid.words, q.path2.value))
    ensures qe.done && qe.err == Ok ==>
      && (q.first_locked || Open(t, index, l.words, q.path1))
      && (q.path2.Some? ==> q.second_locked || Open(t, index, turn.mid.words, q.path2.value))
  {
    hide Attempt, Open, Busy, CutOff;
    assert q.first_locked || Attempt(t, index, (q.id, 1), q.path1, l, turn.err1, turn.mid);
    if !Hard(turn.err1) && !q.second_locked && q.path2.Some? {
      AttemptEnds(t, index, (q.id, 2), q.path2.value, turn.mid, turn.err2, turn.late);
    }
    if !q.first_locked {
      AttemptEnds(t, index, (q.id, 1), q.path1, l, turn.err1, turn.mid);
    }
  }

  lemma AttemptEnds(t: Tree, index: Index, k: Token, r: Request, l: Locks, err: Status, l': Locks)
    requires Attempt(t, index, k, r, l, err, l')
    ensures err == Ok ==> Open(t, index, l.words, r)
    ensures err == Again ==> Busy(t, index, l.words, r)
    ensures err == NoEntry ==> CutOff(t, index, l.words, r)
  {
  }

  /** The directory is cut off from the root, and nobody has to be waited for. */
  ghost predicate CutOff(t: Tree, index: Index, words: LockWords, r: Request) {
    !Busy(t, index, words, r) && !Reachable(t, r.nodeid)
  }

  /** With enough memory the answer is determined: ENOENT for a directory that is cut off, EAGAIN for a
      path that is busy, and the locks for one that is open. One of the three always holds. */
  lemma AttemptAnswer(t: Tree, index: Index, k: Token, r: Request, l: Locks, err: Status, l': Locks)
    requires TreeOk(t, index, l.words) && r.nodeid in t && Attempt(t, index, k, r, l, err, l') && err != NoMemory
    ensures err == Ok <==> Open(t, index, l.words, r)
    ensures err == Again <==> Busy(t, index, l.words, r)
    ensures err == NoEntry <==> CutOff(t, index, l.words, r)
  {
    OpenOrBusy(t, index, l.words, r);
    hide Open, Busy, Reachable, TreeOk;
  }

  /** A writer that finds readers leaves its mark on the node, and then everybody has to wait who would read
      through it. */
  lemma MarkKeepsReadersOut(t: Tree, index: Index, k: Token, r: Request, l: Locks, l': Locks, n: nat)
    requires Attempt(t, index, k, r, l, Again, l') && TargetOf(index, r) == Some(n) && n in l.words
    requires 0 < l.words[n] < INT_MAX
    ensures l' == Locks(l.held, l.words[n := l.words[n] + TREELOCK_WAIT_OFFSET])
    ensures forall q: Request, c | Climb(t, q.nodeid, c) && n in c[..|c| - 1] :: Busy(t, index, l'.words, q)
  {
    forall q: Request, c | Climb(t, q.nodeid, c) && n in c[..|c| - 1] ensures Busy(t, index, l'.words, q) {
      assert Barred(l'.words, c);
    }
  }

  /** With the node to write-lock free it is the way up that decides. */
  lemma BusyIf(t: Tree, index: Index, words: LockWords, r: Request, c: seq<nat>)
    requires Climb(t, r.nodeid, c)
    requires var w := TargetOf(index, r); w.Some? ==> w.value in words && words[w.value] == 0
    ensures Busy(t, index, words, r) <==> Barred(words, c)
  {
    forall d | Climb(t, r.nodeid, d) ensures d == c {
      ClimbUnique(t, r.nodeid, c, d);
    }
  }

  lemma OpenOrBusy(t: Tree, index: Index, words: LockWords, r: Request)
    requires TreeOk(t, index, words) && r.nodeid in t
    ensures Open(t, index, words, r) <==> !Busy(t, index, words, r) && Reachable(t, r.nodeid)
  {
    var c := TheClimb(t, index, r.nodeid);
    TargetAside(t, index, r.nodeid, TargetOf(index, r), r.name.GetOr(""), c);
    forall d | Climb(t, r.nodeid, d) ensures d == c {
      ClimbUnique(t, r.nodeid, c, d);
    }
    assert Free(words, c) <==> !Barred(words, c);
  }

  /** A waiter for a directory that is cut off, with nobody to wait for, leaves the queue at its turn. */
  lemma CutOffLeaves(t: Tree, index: Index, q: Waiter, first: bool, l: Locks, turn: Turn, qe: Waiter, l': Locks)
    requires TreeOk(t, index, l.words) && q.PathWaiter? && !q.done && q.path1.nodeid in t
    requires Turned(t, index, q, first, l, turn, qe, l')
    requires !q.first_locked && CutOff(t, index, l.words, q.path1)
    ensures Failed(qe) && (turn.err1 != NoMemory ==> qe.err == NoEntry)
  {
    hide Attempt, Open, Busy, CutOff, TreeOk, Reachable;
    if turn.err1 != NoMemory {
      AttemptAnswer(t, index, (q.id, 1), q.path1, l, turn.err1, turn.mid);
    }
  }

  // ---------- the mounted filesystem ----------

  class Mount {
    var tree: Tree
    var index: Index
    var treelock: LockWords
    var lockq: seq<Waiter>
    ghost var held: Held

    ghost predicate Valid()
      reads this`tree, this`index, this`treelock, this`held
    {
      TreeOk(tree, index, treelock) && WordsOk(held, treelock) && HoldsOk(held, tree) && Anchored(held, tree)
    }

    ghost function Now(): Locks
      reads this`held, this`treelock
    {
      Locks(held, treelock)
    }

    /** The state that `fuse_new` sets up. */
    constructor ()
      ensures Valid() && Queued() && tree == map[ROOT := Link(None, Some("/"))] && held == map[] && lockq == []
      ensures index == map[] && treelock == map[ROOT := 0]
    {
      tree, index, treelock := map[ROOT := Link(None, Some("/"))], map[], map[ROOT := 0];
      lockq, held := [], map[];
      new;
      assert Climb(tree, ROOT, [ROOT]);
      assert Readers(held, ROOT) == {};
    }

    /** The queue agrees with the locks held. */
    ghost predicate Queued()
      reads this`lockq, this`held, this`tree
    {
      QueueOk(lockq, held, tree)
    }

    /** `lookup_node`. */
    function Lookup(dir: nat, name: string): Option<nat>
      reads this`index
    {
      if (dir, name) in index then Some(index[(dir, name)]) else None
    }

    /** `unlock_path`. The ghost arguments are the climb from `nodeid` and how much of it is
        released. The three assertions of the loop are `Releasable`. */
    method UnlockPath(nodeid: nat, wnode: Option<nat>, end: Option<nat>, ghost c: seq<nat>, ghost upto: nat)
      requires Linked(tree) && Climb(tree, nodeid, c) && upto < |c|
      requires end == Some(c[upto]) || (end == None && c[upto] == ROOT)
      requires treelock.Keys == tree.Keys
      requires wnode.Some? ==> wnode.value in treelock && treelock[wnode.value] == TREELOCK_WRITE
      requires forall n | n in c[..upto] :: n in treelock && wnode != Some(n) && Releasable(treelock[n])
      modifies this`treelock
      ensures treelock == Lowered(WithWord(old(treelock), wnode, 0), c[..upto])
    {
      if wnode.Some? {
        assert treelock[wnode.value] == TREELOCK_WRITE;
        treelock := treelock[wnode.value := 0];
      }
      ghost var words := treelock;
      assert words == WithWord(old(treelock), wnode, 0);
      hide *;
      var node := nodeid;
      ghost var i := 0;
      ClimbFacts(tree, nodeid, c);
      LowerNothing(words, c[..0]);
      while end != Some(node) && node != ROOT
        invariant i <= upto && c[i] == node
        invariant treelock == Lowered(words, c[..i])
        decreases upto - i
      {
        LowerOne(words, c, i);
        assert Releasable(words[node]) by {
          assert node in c[..upto];
        }
        treelock := treelock[node := Lower(treelock[node])];
        node := tree[node].parent.value;
        i := i + 1;
      }
    }

    /** `try_get_path` with locks. `memory` tells that no allocation fails. */
    method TryGetPath(ghost k: Token, nodeid: nat, name: Option<string>, write: bool, memory: bool)
      returns (err: Status, path: string, wnode: Option<nat>)
      requires Valid() && k !in held && |held| + 1 < INT_MAX && nodeid in tree && (write ==> name.Some?)
      modifies this`treelock, this`held
      ensures Valid() && Attempt(tree, index, k, Request(nodeid, name, write), old(Now()), err, Now())
      ensures err == Ok ==> path == held[k].path && wnode == held[k].wnode
      ensures err == NoMemory ==> !memory
    {
      hide WordsOk, HoldsOk, Anchored, Raised, Climb, Spell, Linked, Acyclic, Indexes, StillThere, Attached,
        Barred;
      path, wnode := "", None;
      var fails: bool := *;
      if fails && !memory {
        return NoMemory, path, None;
      }
      if name.Some? {
        path := "/" + name.value;
      }
      ghost var words, tail := treelock, path;
      if write {
        wnode := Lookup(nodeid, name.value);
      }
      ghost var c := TheClimb(tree, index, nodeid);
      TargetAside(tree, index, nodeid, wnode, name.GetOr(""), c);
      if wnode.Some? {
        if treelock[wnode.value] != 0 {
          MarkBusy(wnode.value);
          return Again, path, None;
        }
        treelock := treelock[wnode.value := TREELOCK_WRITE];
      }
      BusyIf(tree, index, words, Request(nodeid, name, write), c);
      err, path := LockUpwards(nodeid, wnode, path, memory, words, c);
      if err != Ok {
        return err, path, None;
      }
      if path == "" {
        path := "/";
      }
      ghost var h := Hold(nodeid, name, path, wnode, c[..|c| - 1], false);
      GrantedText(tree, h, c, tail);
      GrantedWords(held, tree, words, k, h, c);
      GrantedAnchored(held, tree, index, k, h);
      held := held[k := h];
    }

    /** The node to write-lock is taken: if others read through it, the writer leaves its mark. */
    method MarkBusy(n: nat)
      requires Valid() && n in treelock && treelock[n] != 0
      modifies this`treelock
      ensures Valid() && treelock == Marked(old(treelock), Some(n), Again)
    {
      hide WordsOk, HoldsOk, Anchored, Named;
      if treelock[n] > 0 {
        MarkWaiting(held, treelock, n);
        treelock := treelock[n := treelock[n] + TREELOCK_WAIT_OFFSET];
      }
    }

    /** The loop of `try_get_path`, and its exit by `out_unlock`. `words` are the lock words before
        the node to write-lock was taken. */
    method LockUpwards(nodeid: nat, wnode: Option<nat>, text: string, memory: bool, ghost words: LockWords,
                       ghost c: seq<nat>)
      returns (err: Status, path: string)
      requires Linked(tree) && Climb(tree, nodeid, c) && (forall n | n in c :: n in words)
      requires treelock == WithWord(words, wnode, TREELOCK_WRITE) && words.Keys == tree.Keys
      requires wnode.Some? ==> wnode.value in words && words[wnode.value] == 0 && wnode.value !in c
      modifies this`treelock
      ensures err == Ok ==> Free(words, c) && c[|c| - 1] == ROOT && path == Spell(tree, c[..|c| - 1]) + text
      ensures err == Ok ==> treelock == Raised(WithWord(words, wnode, TREELOCK_WRITE), c[..|c| - 1])
      ensures err != Ok ==> treelock == words
      ensures err == Again || err == NoEntry ==> !Lockable(tree, words, nodeid, wnode)
      ensures err == NoEntry ==> !Reachable(tree, nodeid) && !Barred(words, c)
      ensures err == Again ==> Barred(words, c)
      ensures err == NoMemory ==> !memory
    {
      ghost var taken := treelock;
      assert taken.Keys == words.Keys;
      ClimbFacts(tree, nodeid, c);
      hide *;
      var node;
      ghost var i;
      err, path, node, i := Ascend(nodeid, text, memory, words, taken, c);
      if err == Ok {
        FreeIf(tree, words, nodeid, c, i);
      } else {
        if err != NoMemory {
          NotLockable(tree, words, nodeid, wnode, c, i);
        }
        GiveUp(nodeid, wnode, node, words, c, i);
      }
    }

    /** The loop itself: it ends at the root, or with an error at `node`. */
    method Ascend(nodeid: nat, text: string, memory: bool, ghost words: LockWords, ghost taken: LockWords,
                  ghost c: seq<nat>)
      returns (err: Status, path: string, node: nat, ghost i: nat)
      requires Linked(tree) && Climb(tree, nodeid, c) && treelock == taken && taken.Keys == tree.Keys
      requires forall n | n in c :: n in words && n in taken && taken[n] == words[n]
      modifies this`treelock
      ensures i < |c| && c[i] == node && treelock == Raised(taken, c[..i]) && forall j | 0 <= j < i :: words[c[j]] >= 0
      ensures err == Ok ==> node == ROOT && path == Spell(tree, c[..i]) + text
      ensures err != Ok ==> node != ROOT && node in tree
      ensures err == NoEntry ==> tree[node].parent == None
      ensures err == Again ==> words[node] < 0 && tree[node].parent.Some?
      ensures err == NoMemory ==> !memory
    {
      path, node, i := text, nodeid, 0;
      ClimbStarts(tree, words, taken, nodeid, c, text);
      hide *;
      while node != ROOT
        invariant Climbing(tree, words, taken, c, i, text, treelock, node, path)
        decreases |c| - i
      {
        ClimbOn(tree, words, taken, nodeid, c, i, text, treelock, node, path);
        if tree[node].name == None || tree[node].parent == None {
          return NoEntry, path, node, i;
        }
        var fails: bool := *;
        if fails && !memory {
          return NoMemory, path, node, i;
        }
        if treelock[node] < 0 {
          return Again, path, node, i;
        }
        path := "/" + tree[node].name.value + path;
        treelock := treelock[node := treelock[node] + 1];
        node := tree[node].parent.value;
        i := i + 1;
      }
      ClimbSoFar(tree, words, taken, c, i, text, treelock, node, path);
      err := Ok;
    }

    /** The exit of `try_get_path` by `out_unlock`, at the node `end` */
    method GiveUp(nodeid: nat, wnode: Option<nat>, end: nat, ghost words: LockWords, ghost c: seq<nat>, ghost i: nat)
      requires Linked(tree) && Climb(tree, nodeid, c) && i < |c| && c[i] == end && words.Keys == tree.Keys
      requires wnode.Some? ==> wnode.value in words && words[wnode.value] == 0 && wnode.value !in c
      requires forall j | 0 <= j < i :: c[j] in words && words[c[j]] >= 0
      requires treelock == Raised(WithWord(words, wnode, TREELOCK_WRITE), c[..i])
      modifies this`treelock
      ensures treelock == words
    {
      ClimbFacts(tree, nodeid, c);
      assert treelock.Keys == tree.Keys;
      hide *;
      Undo(words, wnode, c, i);
      UnlockPath(nodeid, wnode, Some(end), c, i);
    }

    /** `unlock_path` for a path that is held, as `free_path` calls it. */
    method UnlockHeld(ghost k: Token, nodeid: nat, wnode: Option<nat>)
      requires Valid() && k in held && held[k].nodeid == nodeid && held[k].wnode == wnode
      modifies this`treelock, this`held
      ensures Valid() && Now() == Freed(old(Now()), k)
    {
      hide WordsOk, Climb, Spell, Linked, Acyclic, Indexes, Lowered, WithWord, Raised, PathText;
      ghost var h, words := held[k], treelock;
      HeldNodes(tree, h);
      LoweredKeys(words, wnode, h.nodes);
      Release(held, words, k);
      assert (h.nodes + [ROOT])[..|h.nodes|] == h.nodes;
      UnlockPath(nodeid, wnode, None, h.nodes + [ROOT], |h.nodes|);
      held := held - {k};
    }

    /** `queue_element_wakeup` for the i-th element. */
    method QueueElementWakeup(i: nat, memory: bool) returns (signal: bool, ghost turn: Turn)
      requires Valid() && Queued() && i < |lockq| && |held| + 2 < INT_MAX && !Failed(lockq[i])
      modifies this`treelock, this`held, this`lockq
      ensures Valid() && Queued() && |held| <= |old(held)| + 2
      ensures |lockq| == |old(lockq)| && lockq == old(lockq)[i := lockq[i]] && SameRequest(old(lockq)[i], lockq[i])
      ensures Woken(tree, index, old(lockq)[i], i == 0, old(Now()), turn, lockq[i], Now())
      ensures SameOthers(old(held), held, old(lockq)[i].id)
      ensures signal <==> (if lockq[i].PathWaiter? then lockq[i].done
                           else lockq[i].nodeid1 in treelock && treelock[lockq[i].nodeid1] == 0)
      ensures memory ==> Supplied(turn)
    {
      hide Valid, QueueOk, WaiterOk, Idle, SameOthers, Flags, Turned;
      QueueAt(lockq, held, tree, i);
      turn := Turn(Ok, Now(), Ok, Now());
      SameSelf(held, lockq[i].id);
      if lockq[i].PathWaiter? {
        var qe;
        qe, turn := Retry(lockq[i], i == 0, memory);
        QueueUpdate(lockq, old(held), tree, i, qe, held);
        lockq := lockq[i := qe];
        signal := qe.done;
      } else {
        signal := lockq[i].nodeid1 in treelock && treelock[lockq[i].nodeid1] == 0;
      }
    }

    /** `queue_element_wakeup` for an element that waits for paths. Only the first element of the
        queue may stay partly locked. */
    method Retry(q: Waiter, first: bool, memory: bool) returns (qe: Waiter, ghost turn: Turn)
      requires Valid() && |held| + 2 < INT_MAX && q.PathWaiter? && WaiterOk(q, held, tree) && !Failed(q)
      modifies this`treelock, this`held
      ensures Valid() && |held| <= |old(held)| + 2 && SameOthers(old(held), held, q.id)
      ensures SameRequest(q, qe) && WaiterOk(qe, held, tree) && (!first ==> Idle(qe))
      ensures Turned(tree, index, q, first, old(Now()), turn, qe, Now())
      ensures memory ==> Supplied(turn)
    {
      hide WordsOk, HoldsOk, TreeOk, Anchored, Matches, SameOthers, Flags, Attempt, Freed;
      qe := q;
      SameSelf(held, q.id);
      var err1, err2 := Ok, Ok;
      if !qe.first_locked {
        err1, qe := TryFirst(qe, memory);
      }
      ghost var mid := Now();
      if Hard(err1) {
        err2 := err1;
      } else if !qe.second_locked && qe.path2.Some? {
        ghost var before := held;
        err2, qe := TrySecond(qe, memory);
        SameTrans(old(held), before, held, q.id);
      }
      turn := Turn(err1, mid, err2, Now());
      assert Attempts(tree, index, q, old(Now()), turn) && qe == Tried(index, q, turn);
      if Hard(err2) {
        ghost var before := held;
        qe := QueueElementUnlock(qe);
        SameTrans(old(held), before, held, q.id);
        FlagsKept(qe, qe.(err := err2, done := true), held);
        qe := qe.(err := err2, done := true);
      } else if qe.first_locked && (qe.second_locked || qe.path2 == None) {
        FlagsKept(qe, qe.(err := Ok, done := true), held);
        qe := qe.(err := Ok, done := true);
      } else if !first {
        ghost var before := held;
        qe := QueueElementUnlock(qe);
        SameTrans(old(held), before, held, q.id);
      }
    }

    /** The first attempt inside `queue_element_wakeup`. */
    method TryFirst(qe: Waiter, memory: bool) returns (err: Status, r: Waiter)
      requires Valid() && |held| + 1 < INT_MAX
      requires qe.PathWaiter? && Flags(qe, held) && !qe.first_locked && Servable(tree, qe.path1)
      modifies this`treelock, this`held
      ensures Valid() && |held| <= |old(held)| + 1 && SameOthers(old(held), held, qe.id)
      ensures r == if err == Ok then qe.(first_locked := true, wnode1 := TargetOf(index, qe.path1)) else qe
      ensures Flags(r, held)
      ensures Attempt(tree, index, (qe.id, 1), qe.path1, old(Now()), err, Now()) && (err == NoMemory ==> !memory)
    {
      hide WordsOk, TreeOk, Lockable, Marked, Raised, HoldsOk, Anchored, StillThere;
      var path, wnode;
      err, path, wnode := TryGetPath((qe.id, 1), qe.path1.nodeid, qe.path1.name, qe.path1.write, memory);
      r := if err == Ok then qe.(first_locked := true, wnode1 := wnode) else qe;
    }

    /** The second attempt inside `queue_element_wakeup`. */
    method TrySecond(qe: Waiter, memory: bool) returns (err: Status, r: Waiter)
      requires Valid() && |held| + 1 < INT_MAX
      requires qe.PathWaiter? && Flags(qe, held) && !qe.second_locked && qe.path2.Some?
      requires Servable(tree, qe.path2.value)
      modifies this`treelock, this`held
      ensures Valid() && |held| <= |old(held)| + 1 && SameOthers(old(held), held, qe.id)
      ensures r == if err == Ok then qe.(second_locked := true, wnode2 := TargetOf(index, qe.path2.value)) else qe
      ensures Flags(r, held)
      ensures Attempt(tree, index, (qe.id, 2), qe.path2.value, old(Now()), err, Now()) && (err == NoMemory ==> !memory)
    {
      hide WordsOk, TreeOk, Lockable, Marked, Raised, HoldsOk, Anchored, StillThere;
      var path, wnode;
      err, path, wnode := TryGetPath((qe.id, 2), qe.path2.value.nodeid, qe.path2.value.name, qe.path2.value.write,
                                     memory);
      r := if err == Ok then qe.(second_locked := true, wnode2 := wnode) else qe;
    }

    /** `queue_element_unlock`: gives back what the element holds. */
    method QueueElementUnlock(qe: Waiter) returns (r: Waiter)
      requires Valid() && qe.PathWaiter? && Flags(qe, held)
      modifies this`treelock, this`held
      ensures Valid() && |held| <= |old(held)| && SameOthers(old(held), held, qe.id)
      ensures r == qe.(first_locked := false, second_locked := false) && Flags(r, held)
      ensures Now() == Freed(Freed(old(Now()), (qe.id, 1)), (qe.id, 2))
    {
      hide Valid, Freed, SameOthers;
      r := qe;
      FreedBoth(Now(), qe.id);
      if qe.first_locked {
        UnlockHeld((qe.id, 1), qe.path1.nodeid, qe.wnode1);
        r := r.(first_locked := false);
      }
      if qe.second_locked {
        UnlockHeld((qe.id, 2), qe.path2.value.nodeid, qe.wnode2);
        r := r.(second_locked := false);
      }
    }

    /** `wake_up_queued`, and the failed waiters leave the queue. */
    method WakeUpQueued(memory: bool) returns (ghost pass: Pass)
      requires Valid() && Queued() && |held| + 2 * |lockq| < INT_MAX
      requires forall q | q in lockq :: !Failed(q)
      modifies this`treelock, this`held, this`lockq
      ensures Valid() && Queued() && forall q | q in lockq :: !Failed(q)
      ensures Passed(tree, index, old(lockq), old(Now()), pass, lockq, Now())
      ensures Undisturbed(old(lockq), old(held), held)
      ensures memory ==> forall turn | turn in pass.turns :: Supplied(turn)
    {
      hide Valid, QueueOk, Supplied, Woken, PassUpTo, Passed, Halfway, Undisturbed, SameOthers, SameRequest,
        Longer, Pruned, Failed;
      var i := 0;
      pass := Pass([], [], [Now()]);
      PassStarts(tree, index, lockq, Now());
      AtStart(lockq, Pass([], [], [Now()]));
      Nothing(lockq, held);
      while i < |lockq|
        invariant Valid() && Queued() && Halfway(old(lockq), lockq, i, pass)
        invariant PassUpTo(tree, index, old(lockq), old(Now()), pass, i, Now())
        invariant Undisturbed(old(lockq), old(held), held)
        invariant |held| + 2 * (|lockq| - i) < INT_MAX
        invariant memory ==> forall turn | turn in pass.turns :: Supplied(turn)
        decreases |lockq| - i
      {
        ghost var was, before := Now(), lockq;
        Onwards(old(lockq), lockq, i, pass);
        var _, turn := QueueElementWakeup(i, memory);
        OneMore(old(lockq), i, old(held), was.held, held);
        PassLonger(tree, index, old(lockq), old(Now()), pass, i, was, turn, lockq[i], Now());
        TurnOver(old(lockq), before, i, pass, turn, lockq[i], Now());
        LongerTurns(pass, turn, lockq[i], Now());
        pass := Longer(pass, turn, lockq[i], Now());
        i := i + 1;
      }
      AllOver(tree, index, old(lockq), old(Now()), lockq, i, pass, Now());
      PrunedOk(lockq, held, tree);
      lockq := Pruned(lockq);
    }

    /** `get_path_common`: locks one path, or queues the request. */
    method GetPath(id: nat, r: Request, memory: bool) returns (err: Status, path: string, wnode: Option<nat>)
      requires Valid() && Queued() && Servable(tree, r) && Unused(id) && |held| + 1 < INT_MAX
      modifies this`treelock, this`held, this`lockq
      ensures Valid() && Queued()
      ensures Attempt(tree, index, (id, 1), r, old(Now()), err, Now()) && (err == NoMemory ==> !memory)
      ensures memory ==> (err == Again <==> Busy(tree, index, old(treelock), r))
      ensures memory ==> (err == NoEntry <==> CutOff(tree, index, old(treelock), r))
      ensures err == Ok ==> path == held[(id, 1)].path && wnode == held[(id, 1)].wnode
      ensures lockq == if err != Again then old(lockq)
        else old(lockq) + [PathWaiter(id, r, None, false, false, None, None, false, Ok)]
    {
      hide WordsOk, HoldsOk, TreeOk, Anchored, QueueOk, Open, Busy, CutOff, Marked, StillThere;
      err, path, wnode := TryGetPath((id, 1), r.nodeid, r.name, r.write, memory);
      if memory {
        AttemptAnswer(tree, index, (id, 1), r, old(Now()), err, Now());
      }
      if err == Again {
        QueueAppend(lockq, held, tree, Waiting(id, r, None));
        lockq := lockq + [Waiting(id, r, None)];
      } else if err == Ok {
        QueueOthers(lockq, old(held), held, tree, id);
      }
    }

    /** `get_path2`: locks both paths or none; waits for both in the queue. A failure leaves no more
        than the mark of a waiting writer. */
    method GetPath2(id: nat, r1: Request, r2: Request, memory: bool)
      returns (err: Status, path1: string, path2: string, wnode1: Option<nat>, wnode2: Option<nat>, ghost turn: Turn)
      requires Valid() && Queued() && Servable(tree, r1) && Servable(tree, r2) && Unused(id) && |held| + 2 < INT_MAX
      modifies this`treelock, this`held, this`lockq
      ensures Valid() && Queued() && err == if turn.err1 == Ok then turn.err2 else turn.err1
      ensures memory ==> Supplied(turn)
      ensures Attempt(tree, index, (id, 1), r1, old(Now()), turn.err1, turn.mid)
      ensures turn.err1 == Ok ==> Attempt(tree, index, (id, 2), r2, turn.mid, turn.err2, turn.late)
      ensures memory ==> (err == Again <==>
        Busy(tree, index, old(treelock), r1) || (turn.err1 == Ok && Busy(tree, index, turn.mid.words, r2)))
      ensures memory ==> (err == NoEntry <==>
        CutOff(tree, index, old(treelock), r1) || (turn.err1 == Ok && CutOff(tree, index, turn.mid.words, r2)))
      ensures err == Ok ==> Now() == turn.late && path1 == held[(id, 1)].path && path2 == held[(id, 2)].path
      ensures err == Ok ==> wnode1 == TargetOf(index, r1) && wnode2 == TargetOf(index, r2)
      ensures err != Ok ==> held == old(held)
      ensures err != Ok ==> treelock == Marked(old(treelock), TargetOf(index, if turn.err1 == Ok then r2 else r1), err)
      ensures lockq == if err != Again then old(lockq)
        else old(lockq) + [PathWaiter(id, r1, Some(r2), false, false, None, None, false, Ok)]
    {
      hide WordsOk, HoldsOk, TreeOk, Anchored, QueueOk, Open, Busy, CutOff, Marked, Raised, Lowered, StillThere;
      path2, wnode2 := "", None;
      err, path1, wnode1 := TryGetPath((id, 1), r1.nodeid, r1.name, r1.write, memory);
      turn := Turn(err, Now(), err, Now());
      if memory {
        AttemptAnswer(tree, index, (id, 1), r1, old(Now()), err, Now());
      }
      if err == Ok {
        ghost var mid := Now();
        err, path2, wnode2 := TryGetPath((id, 2), r2.nodeid, r2.name, r2.write, memory);
        turn := Turn(Ok, mid, err, Now());
        if memory {
          AttemptAnswer(tree, index, (id, 2), r2, mid, err, Now());
        }
        if err != Ok {
          UnlockHeld((id, 1), r1.nodeid, wnode1);
          BackToMarks(tree, index, (id, 1), r1, old(Now()), mid, TargetOf(index, r2), err);
        }
      }
      if err == Again {
        QueueAppend(lockq, held, tree, Waiting(id, r1, Some(r2)));
        lockq := lockq + [Waiting(id, r1, Some(r2))];
      } else if err == Ok {
        QueueOthers(lockq, old(held), held, tree, id);
      }
    }

    /** No waiter and no lock carries this number yet. */
    ghost predicate Unused(id: nat)
      reads this`lockq, this`held
    {
      (id, 1) !in held && (id, 2) !in held && Absent(lockq, id)
    }

    /** The loop in `forget_node`, each time that the thread has the mutex. `last` tells that the
        forget would take the last lookups of the node; then it waits in the queue, without a lock,
        until nobody holds the node. `place` is where its element is queued, if it is. */
    method AwaitUnlocked(id: nat, nodeid: nat, last: bool, place: Option<nat>) returns (go: bool)
      requires Valid() && Queued() && nodeid in tree
      requires place.None? ==> Unused(id)
      requires place.Some? ==> place.value < |lockq| && lockq[place.value] == ForgetWaiter(id, nodeid)
      modifies this`lockq
      ensures Queued() && (go <==> !last || treelock[nodeid] == 0)
      ensures !go ==> lockq == if place.Some? then old(lockq) else old(lockq) + [ForgetWaiter(id, nodeid)]
      ensures go ==> lockq == if place.None? then old(lockq)
        else old(lockq)[..place.value] + old(lockq)[place.value + 1..]
      ensures go && last ==> forall k | k in held :: nodeid !in held[k].nodes && held[k].wnode != Some(nodeid)
    {
      hide WordsOk, HoldsOk, Named, QueueOk, Anchored;
      go := !last || treelock[nodeid] == 0;
      if go && place.Some? {
        DequeuePath(place.value);
      } else if !go && place.None? {
        QueueAppend(lockq, held, tree, ForgetWaiter(id, nodeid));
        lockq := lockq + [ForgetWaiter(id, nodeid)];
      }
      if go && last {
        Unread(held, treelock, nodeid);
      }
    }

    /** The waiter whose locks are complete takes them and leaves the queue. */
    method DequeuePath(i: nat)
      requires Queued() && i < |lockq|
      modifies this`lockq
      ensures Queued() && lockq == old(lockq)[..i] + old(lockq)[i + 1..]
    {
      QueueRemove(lockq, held, tree, i);
      lockq := lockq[..i] + lockq[i + 1..];
    }

    /** `free_path` and `free_path_wrlock`: unlocks one path and wakes the queue. */
    method FreePath(id: nat, nodeid: nat, wnode: Option<nat>, memory: bool) returns (ghost pass: Pass)
      requires Valid() && Queued() && |held| + 2 * |lockq| < INT_MAX
      requires (id, 1) in held && held[(id, 1)].nodeid == nodeid && held[(id, 1)].wnode == wnode
      requires Absent(lockq, id) && forall q | q in lockq :: !Failed(q)
      modifies this`treelock, this`held, this`lockq
      ensures Valid() && Queued() && forall q | q in lockq :: !Failed(q)
      ensures Passed(tree, index, old(lockq), Freed(old(Now()), (id, 1)), pass, lockq, Now())
      ensures (id, 1) !in held && Undisturbed(old(lockq), old(held) - {(id, 1)}, held)
      ensures memory ==> forall turn | turn in pass.turns :: Supplied(turn)
    {
      hide Valid, QueueOk, Woken;
      UnlockHeld((id, 1), nodeid, wnode);
      QueueOthers(lockq, old(held), held, tree, id);
      if lockq != [] {
        pass := WakeUpQueued(memory);
      } else {
        pass := Pass([], [], [Now()]);
      }
    }

    /** `free_path2` */
    method FreePath2(id: nat, nodeid1: nat, nodeid2: nat, wnode1: Option<nat>, wnode2: Option<nat>, memory: bool)
      returns (ghost pass: Pass)
      requires Valid() && Queued() && |held| + 2 * |lockq| < INT_MAX
      requires (id, 1) in held && held[(id, 1)].nodeid == nodeid1 && held[(id, 1)].wnode == wnode1
      requires (id, 2) in held && held[(id, 2)].nodeid == nodeid2 && held[(id, 2)].wnode == wnode2
      requires Absent(lockq, id) && forall q | q in lockq :: !Failed(q)
      modifies this`treelock, this`held, this`lockq
      ensures Valid() && Queued() && forall q | q in lockq :: !Failed(q)
      ensures Passed(tree, index, old(lockq), Freed(Freed(old(Now()), (id, 1)), (id, 2)), pass, lockq, Now())
      ensures (id, 1) !in held && (id, 2) !in held && Undisturbed(old(lockq), old(held) - {(id, 1), (id, 2)}, held)
      ensures memory ==> forall turn | turn in pass.turns :: Supplied(turn)
    {
      hide Valid, QueueOk, Passed;
      UnlockHeld((id, 1), nodeid1, wnode1);
      UnlockHeld((id, 2), nodeid2, wnode2);
      QueueOthers(lockq, old(held), held, tree, id);
      pass := WakeUpQueued(memory);
    }

    // ---------- the tree ----------

    /** The part of `find_node` that makes a node and hashes its name. */
    method NewNode(n: nat, dir: nat, name: string)
      requires Valid() && Queued() && n !in tree && n != ROOT && dir in tree && Lookup(dir, name) == None
      modifies this`tree, this`treelock, this`index
      ensures Valid() && Queued() && tree == Moved(old(tree), n, dir, name) && treelock == old(treelock)[n := 0]
      ensures index == old(index)[(dir, name) := n]
    {
      hide Climb, WordsOk, HoldsOk, QueueOk, Named, Anchored;
      ghost var t, t' := tree, Unlinked(tree, n);
      ghost var cd := TheClimb(tree, index, dir);
      NewNamed(tree, index, n);
      NewIsUnread(held, tree, treelock, n);
      HoldsKept(held, tree, t', n);
      AnchoredKept(held, tree, t', n);
      ClimbAvoids(tree, t', n, dir, cd);
      QueueTree(lockq, held, tree, t');
      tree, treelock := Unlinked(tree, n), treelock[n := 0];
      HashNode(n, dir, name, cd);
      MovedTwice(t, n, dir, name);
    }

    /** `hash_name` on the tree: `dir` must be outside the subtree of `n`. */
    method HashNode(n: nat, dir: nat, name: string, ghost cd: seq<nat>)
      requires Valid() && Queued() && n in tree && n != ROOT && tree[n].parent == None
      requires treelock[n] == 0 || treelock[n] == TREELOCK_WRITE
      requires Climb(tree, dir, cd) && n !in cd && Lookup(dir, name) == None
      modifies this`tree, this`index
      ensures Valid() && Queued() && tree == Moved(old(tree), n, dir, name) && index == old(index)[(dir, name) := n]
    {
      hide Climb, WordsOk, HoldsOk, QueueOk, Named, Anchored;
      HashNamed(tree, index, n, dir, name, cd);
      Unread(held, treelock, n);
      HoldsKept(held, tree, Moved(tree, n, dir, name), n);
      Nameless(held, tree, n);
      AnchoredKept(held, tree, Moved(tree, n, dir, name), n);
      QueueTree(lockq, held, tree, Moved(tree, n, dir, name));
      tree, index := Moved(tree, n, dir, name), index[(dir, name) := n];
    }

    /** `unhash_name` on the tree. It leaves all locked paths in place exactly if nobody reads
        through the node. */
    method UnhashNode(n: nat)
      requires Valid() && Queued() && n in tree && n != ROOT
      modifies this`tree, this`index, this`held
      ensures TreeOk(tree, index, treelock) && WordsOk(held, treelock) && Anchored(held, tree) && tree[n].parent == None
      ensures tree == if old(tree)[n].parent == None then old(tree) else Unlinked(old(tree), n)
      ensures index == if old(tree)[n].parent == None then old(index) else old(index) - {KeyOf(old(tree), n)}
      ensures held == if old(tree)[n].parent == None then old(held) else AfterMove(old(held), n)
      ensures Valid() <==> old(tree)[n].parent == None || treelock[n] == 0 || treelock[n] == TREELOCK_WRITE
      ensures (forall k | k in old(held) && old(held)[k].wnode == Some(n) :: Absent(lockq, k.0)) ==> Queued()
    {
      hide Climb, WordsOk, HoldsOk, QueueOk, Named, Anchored;
      if tree[n].parent.Some? {
        UnlinkNamed(tree, index, n);
        UnlinkIsSafeWhenUnread(held, tree, treelock, n);
        AfterMoveKeeps(held, Unlinked(tree, n), treelock, n);
        AnchoredMove(held, tree, Unlinked(tree, n), n);
        QueueTree(lockq, held, tree, Unlinked(tree, n));
        if forall k | k in held && held[k].wnode == Some(n) :: Absent(lockq, k.0) {
          QueueMove(lockq, held, Unlinked(tree, n), n);
        }
        tree, index, held := Unlinked(tree, n), index - {KeyOf(tree, n)}, AfterMove(held, n);
      }
    }

    ghost predicate Locked(k: Token, dir: nat, name: string)
      reads this`held, this`index, this`treelock
    {
      LockedName(Now(), index, k, dir, name)
    }

    /** `remove_node` on the tree, by the request that holds the path. */
    method RemoveNode(ghost id: nat, dir: nat, name: string)
      requires Valid() && Queued() && Locked((id, 1), dir, name) && Absent(lockq, id)
      modifies this`tree, this`index, this`held
      ensures Valid() && Queued() && SameOthers(old(held), held, id) && index == old(index) - {(dir, name)}
      ensures tree == if old(Lookup(dir, name)).Some? then Unlinked(old(tree), old(index)[(dir, name)]) else old(tree)
      ensures held == if old(Lookup(dir, name)).Some? then AfterMove(old(held), old(index)[(dir, name)]) else old(held)
    {
      hide Climb, WordsOk, HoldsOk, QueueOk, Named, Anchored;
      var node := Lookup(dir, name);
      if node.Some? {
        IndexedNode(tree, index, (dir, name));
        LockedNode(held, tree, index, treelock, (id, 1), dir, name);
        UnhashNode(node.value);
      }
    }

    /** `rename_node` on the tree, by the request that holds the two paths. The locks alone keep the
        new directory outside the moved subtree. */
    method RenameNode(ghost id: nat, olddir: nat, oldname: string, newdir: nat, newname: string)
      requires Valid() && Queued() && Absent(lockq, id)
      requires Locked((id, 1), olddir, oldname) && Locked((id, 2), newdir, newname)
      modifies this`tree, this`index, this`held
      ensures Valid() && Queued() && SameOthers(old(held), held, id) && SameHolds(old(held), held)
      ensures var n := old(Lookup(olddir, oldname)); var m := old(Lookup(newdir, newname));
        && tree == Renamed(old(tree), n, m, newdir, newname)
        && index == (if n.Some? then (old(index) - {(newdir, newname), (olddir, oldname)})[(newdir, newname) := n.value]
                     else old(index))
        && held == if n.Some? then AfterMove(if m.Some? then AfterMove(old(held), m.value) else old(held), n.value)
                   else old(held)
    {
      hide *;
      var node, newnode := Lookup(olddir, oldname), Lookup(newdir, newname);
      RenamesNothing(tree, held, id, newnode, newdir, newname);
      if node.Some? {
        ghost var cd := Ready(id, node.value, olddir, oldname, newdir, newname);
        RenameFound(id, node.value, newnode, olddir, oldname, newdir, newname, cd);
      }
    }

    /** The same for a node that is there. */
    method RenameFound(ghost id: nat, n: nat, m: Option<nat>, olddir: nat, oldname: string, newdir: nat,
                       newname: string, ghost cd: seq<nat>)
      requires Valid() && Queued() && Absent(lockq, id) && m == Lookup(newdir, newname)
      requires Renamable(id, n, m, olddir, oldname, newdir, newname, cd)
      modifies this`tree, this`index, this`held
      ensures Valid() && Queued() && SameOthers(old(held), held, id) && SameHolds(old(held), held)
      ensures tree == Renamed(old(tree), Some(n), m, newdir, newname)
      ensures index == (old(index) - {(newdir, newname), (olddir, oldname)})[(newdir, newname) := n]
      ensures held == AfterMove(if m.Some? then AfterMove(old(held), m.value) else old(held), n)
    {
      hide Climb, Valid, QueueOk, Named, Moved, SameOthers, KeyOf, Unlinked, SameHolds, AfterMove;
      AfterMoveTwice(held, m, n, id);
      if m.Some? {
        RenameOver(id, n, m.value, olddir, oldname, newdir, newname, cd);
      } else {
        TakesName(index, (newdir, newname), (olddir, oldname), m, n);
        MoveNode(n, newdir, newname, cd);
      }
    }

    /** The same when the new name has a node already: it is unlinked first. */
    method RenameOver(ghost id: nat, n: nat, m: nat, olddir: nat, oldname: string, newdir: nat, newname: string,
                      ghost cd: seq<nat>)
      requires Valid() && Queued() && Absent(lockq, id) && Lookup(newdir, newname) == Some(m)
      requires Renamable(id, n, Some(m), olddir, oldname, newdir, newname, cd)
      modifies this`tree, this`index, this`held
      ensures Valid() && Queued() && tree == Moved(Unlinked(old(tree), m), n, newdir, newname)
      ensures index == (old(index) - {(newdir, newname), (olddir, oldname)})[(newdir, newname) := n]
      ensures held == AfterMove(AfterMove(old(held), m), n)
    {
      hide Climb, Valid, QueueOk, Named, Moved, SameOthers, KeyOf, Unlinked, SameHolds, AfterMove;
      AfterMoveTwice(held, Some(m), n, id);
      UnhashNode(m);
      TakesName(index, (newdir, newname), (olddir, oldname), Some(m), n);
      MoveNode(n, newdir, newname, cd);
    }

    /** What the locks of a rename guarantee before it starts. */
    ghost predicate Renamable(id: nat, n: nat, m: Option<nat>, olddir: nat, oldname: string, newdir: nat,
                              newname: string, cd: seq<nat>)
      reads this`tree, this`treelock, this`held
    {
      Ours(id, n, olddir, oldname) && n !in cd && Climb(tree, newdir, cd) &&
      (m.Some? ==>
        && Ours(id, m.value, newdir, newname)
        && Climb(Unlinked(tree, m.value), newdir, cd) && n in Unlinked(tree, m.value)
        && (n == m.value <==> (olddir, oldname) == (newdir, newname))
        && (n == m.value ==> Unlinked(tree, n)[n].parent == None)
        && (n != m.value ==>
            Unlinked(tree, m.value)[n] == tree[n] && KeyOf(Unlinked(tree, m.value), n) == (olddir, oldname)))
    }

    /** The node has this name, nobody reads through it, and only this request may write it. */
    ghost predicate Ours(id: nat, n: nat, dir: nat, name: string)
      reads this`tree, this`treelock, this`held
    {
      && n in tree && n != ROOT && n in treelock && (treelock[n] == 0 || treelock[n] == TREELOCK_WRITE)
      && KeyOf(tree, n) == (dir, name) && tree[n].parent == Some(dir)
      && forall k | k in held && held[k].wnode == Some(n) :: k.0 == id
    }

    lemma Ready(id: nat, n: nat, olddir: nat, oldname: string, newdir: nat, newname: string) returns (cd: seq<nat>)
      requires Valid() && Lookup(olddir, oldname) == Some(n)
      requires Locked((id, 1), olddir, oldname) && Locked((id, 2), newdir, newname)
      ensures Renamable(id, n, Lookup(newdir, newname), olddir, oldname, newdir, newname, cd)
    {
      hide Climb, WordsOk, HoldsOk, Named, StillThere, Attached, Anchored;
      cd := held[(id, 2)].nodes + [ROOT];
      IndexedNode(tree, index, (olddir, oldname));
      LockedNode(held, tree, index, treelock, (id, 1), olddir, oldname);
      NotOnTheWay(held, tree, treelock, (id, 2), n);
      var m := Lookup(newdir, newname);
      TargetAside(tree, index, newdir, m, newname, cd);
      if m.Some? {
        IndexedNode(tree, index, (newdir, newname));
        LockedNode(held, tree, index, treelock, (id, 2), newdir, newname);
        ClimbAvoids(tree, Unlinked(tree, m.value), m.value, newdir, cd);
      }
    }

    /** The second half of `rename_node`: the node leaves its name, if it still has one, and gets the
        new one. */
    method MoveNode(n: nat, newdir: nat, newname: string, ghost cd: seq<nat>)
      requires Valid() && Queued() && n in tree && n != ROOT && (treelock[n] == 0 || treelock[n] == TREELOCK_WRITE)
      requires forall k | k in held && held[k].wnode == Some(n) :: Absent(lockq, k.0)
      requires Climb(tree, newdir, cd) && n !in cd
      requires (newdir, newname) in index ==> tree[n].parent.Some? && KeyOf(tree, n) == (newdir, newname)
      modifies this`tree, this`index, this`held
      ensures Valid() && Queued() && tree == Moved(old(tree), n, newdir, newname)
      ensures index == (if old(tree)[n].parent == None then old(index)
                        else old(index) - {KeyOf(old(tree), n)})[(newdir, newname) := n]
      ensures held == if old(tree)[n].parent == None then old(held) else AfterMove(old(held), n)
    {
      hide Climb, Valid, QueueOk, Named, AfterMove, KeyOf;
      ghost var t := tree;
      ClimbAvoids(tree, Unlinked(tree, n), n, newdir, cd);
      UnhashNode(n);
      MovedTwice(t, n, newdir, newname);
      HashNode(n, newdir, newname, cd);
    }

    /** `fuse_lib_rename`, when no other thread runs in between: both paths are locked, the filesystem
        renames or refuses, the tree follows, and the queue gets its turn with exactly the locks that
        were held before. */
    method Rename(id: nat, olddir: nat, oldname: string, newdir: nat, newname: string, refused: bool, memory: bool)
      returns (err: Status, ghost turn: Turn, ghost pass: Pass)
      requires Valid() && Queued() && Unused(id) && olddir in tree && newdir in tree
      requires |held| + 2 + 2 * |lockq| < INT_MAX && forall q | q in lockq :: !Failed(q)
      modifies this
      ensures Valid() && Queued() && forall q | q in lockq :: !Failed(q)
      ensures var r1, r2 := Request(olddir, Some(oldname), true), Request(newdir, Some(newname), true);
        && Attempt(old(tree), old(index), (id, 1), r1, old(Now()), turn.err1, turn.mid)
        && (turn.err1 == Ok ==> Attempt(old(tree), old(index), (id, 2), r2, turn.mid, turn.err2, turn.late))
        && err == (if turn.err1 == Ok then turn.err2 else turn.err1)
        && (err == Again ==> lockq == old(lockq) + [Waiting(id, r1, Some(r2))])
        && (err != Ok ==> held == old(held))
      ensures err == Ok ==> Passed(tree, index, old(lockq), old(Now()), pass, lockq, Now())
      ensures memory ==> Supplied(turn) && forall turn | turn in pass.turns :: Supplied(turn)
      ensures tree == if err != Ok || refused then old(tree)
                      else Renamed(old(tree), old(Lookup(olddir, oldname)), old(Lookup(newdir, newname)), newdir,
                                   newname)
    {
      hide WordsOk, HoldsOk, TreeOk, Anchored, QueueOk, Lockable, Marked, Raised, Lowered, StillThere, Passed, Freed,
        AfterMove, Renamed;
      var r1, r2 := Request(olddir, Some(oldname), true), Request(newdir, Some(newname), true);
      var path1, path2, wnode1, wnode2;
      err, path1, path2, wnode1, wnode2, turn := GetPath2(id, r1, r2, memory);
      pass := Pass([], [], []);
      if err == Ok {
        SameSelf(held, id);
        assert SameHolds(held, held);
        if !refused {
          RenameNode(id, olddir, oldname, newdir, newname);
        }
        GivenBack(old(tree), old(index), id, r1, r2, old(Now()), turn.mid, turn.late, held);
        pass := FreePath2(id, olddir, newdir, wnode1, wnode2, memory);
      }
    }

    /** `delete_node` on the tree, for a node without a name or children. */
    method DeleteNode(n: nat)
      requires Valid() && Queued() && n in tree && n != ROOT && tree[n].parent == None && treelock[n] == 0
      requires forall m | m in tree :: tree[m].parent != Some(n)
      modifies this`tree, this`treelock
      ensures Valid() && tree == old(tree) - {n} && treelock == old(treelock) - {n}
      ensures (forall q | q in lockq :: !Names(q, n)) ==> Queued()
    {
      hide Climb, HoldsOk, Named, QueueOk, Anchored;
      DeleteNamed(tree, index, n);
      Unread(held, treelock, n);
      HoldsKept(held, tree, tree - {n}, n);
      AnchoredKept(held, tree, tree - {n}, n);
      if forall q | q in lockq :: !Names(q, n) {
        QueueTree(lockq, held, tree, tree - {n});
      }
      tree, treelock := tree - {n}, treelock - {n};
    }
  }

  /** The climb from `nodeid` reaches the root, nobody writes or waits on it, and the target is free. */
  ghost predicate Lockable(t: Tree, words: LockWords, nodeid: nat, target: Option<nat>) {
    (target.Some? ==> target.value in words && words[target.value] == 0) &&
    exists c :: Attached(t, nodeid, c) && Free(words, c)
  }

  /** The words after a failed attempt. */
  ghost function Marked(words: LockWords, target: Option<nat>, err: Status): LockWords {
    if err == Again && target.Some? && target.value in words && words[target.value] > 0
    then words[target.value := words[target.value] + TREELOCK_WAIT_OFFSET]
    else words
  }

  lemma LowerNothing(words: LockWords, nodes: seq<nat>)
    requires nodes == []
    ensures Lowered(words, nodes) == words
  {
  }

  lemma LowerOne(words: LockWords, c: seq<nat>, i: nat)
    requires i < |c| && c[i] in words && c[i] !in c[..i]
    ensures var was := Lowered(words, c[..i]);
            c[i] in was && was[c[i]] == words[c[i]] && Lowered(words, c[..i + 1]) == was[c[i] := Lower(words[c[i]])]
  {
    assert c[..i + 1] == c[..i] + [c[i]];
  }

  /** What `unlock_path` finds when an attempt gives up after i nodes, and what it leaves. */
  lemma Undo(words: LockWords, w: Option<nat>, c: seq<nat>, i: nat)
    requires i < |c| && (w.Some? ==> w.value in words && words[w.value] == 0 && w.value !in c)
    requires forall j | 0 <= j < i :: c[j] in words && words[c[j]] >= 0
    ensures var now := Raised(WithWord(words, w, TREELOCK_WRITE), c[..i]);
      && (w.Some? ==> w.value in now && now[w.value] == TREELOCK_WRITE)
      && (forall n | n in c[..i] :: n in now && w != Some(n) && Releasable(now[n]))
      && Lowered(WithWord(now, w, 0), c[..i]) == words
  {
    assert forall n | n in c[..i] :: n in c;
  }

  /** A node without a way up or under a writer makes the path unavailable. */
  lemma NotLockable(t: Tree, words: LockWords, nodeid: nat, target: Option<nat>, c: seq<nat>, i: nat)
    requires Linked(t) && Climb(t, nodeid, c) && i < |c| && c[i] != ROOT && c[i] in t && c[i] in words
    requires t[c[i]].parent == None || words[c[i]] < 0
    ensures !Lockable(t, words, nodeid, target) && (t[c[i]].parent == None ==> !Reachable(t, nodeid))
    ensures t[c[i]].parent == None && (forall j | 0 <= j < i :: c[j] in words && words[c[j]] >= 0) ==> !Barred(words, c)
    ensures t[c[i]].parent.Some? ==> Barred(words, c)
  {
    if t[c[i]].parent.Some? {
      ClimbFacts(t, nodeid, c);
      ClimbSuffix(t, nodeid, c, i);
      assert i < |c| - 1;
    } else {
      ClimbTop(t, nodeid, c, i);
    }
    forall d | Attached(t, nodeid, d) ensures !Free(words, d) && t[c[i]].parent != None {
      ClimbUnique(t, nodeid, c, d);
      ClimbFacts(t, nodeid, c);
    }
  }

  lemma ClimbTop(t: Tree, n: nat, c: seq<nat>, i: nat)
    requires Climb(t, n, c) && i < |c| && c[i] in t && t[c[i]].parent == None
    ensures i == |c| - 1
  {
    ClimbSuffix(t, n, c, i);
    assert |c[i..]| == 1;
  }

  /** Nobody writes or waits below the top of the climb. */
  ghost predicate Free(words: LockWords, c: seq<nat>) {
    forall i | 0 <= i < |c| - 1 :: c[i] in words && words[c[i]] >= 0
  }

  lemma FreeIf(t: Tree, words: LockWords, nodeid: nat, c: seq<nat>, i: nat)
    requires Linked(t) && Climb(t, nodeid, c) && i < |c| && c[i] == ROOT && (forall n | n in c :: n in words)
    requires forall j | 0 <= j < i :: words[c[j]] >= 0
    ensures i == |c| - 1 && Free(words, c)
  {
    ClimbFacts(t, nodeid, c);
  }

  /** The path of a successful attempt. */
  lemma GrantedText(t: Tree, h: Hold, c: seq<nat>, tail: string)
    requires Climb(t, h.nodeid, c) && c[|c| - 1] == ROOT && h.nodes == c[..|c| - 1]
    requires tail == if h.name.Some? then "/" + h.name.value else ""
    requires var path := Spell(t, h.nodes) + tail; h.path == if path == "" then "/" else path
    ensures StillThere(t, h)
  {
    assert h.nodes + [ROOT] == c;
    PathBuffers.SpellLong(t, h.nodes);
    var upper := Spell(t, h.nodes);
    if h.name.Some? {
      assert upper + ("/" + h.name.value) == upper + "/" + h.name.value;
    } else {
      assert upper + "" == upper;
    }
  }

  /** The locks of a successful attempt. */
  lemma GrantedWords(held: Held, t: Tree, words: LockWords, k: Token, h: Hold, c: seq<nat>)
    requires WordsOk(held, words) && HoldsOk(held, t) && words.Keys == t.Keys && k !in held && |held| + 1 < INT_MAX
    requires c != [] && StillThere(t, h) && h.nodes == c[..|c| - 1] && Attached(t, h.nodeid, c) && Free(words, c)
    requires h.wnode.Some? ==> h.wnode.value in words && words[h.wnode.value] == 0 && h.wnode.value !in c
    ensures WordsOk(held[k := h], Raised(WithWord(words, h.wnode, TREELOCK_WRITE), h.nodes))
    ensures HoldsOk(held[k := h], t) && Lockable(t, words, h.nodeid, h.wnode)
    ensures Raised(WithWord(words, h.wnode, TREELOCK_WRITE), h.nodes).Keys == t.Keys
  {
    assert forall n | n in h.nodes :: n in c;
    Acquire(held, words, k, h);
  }

  /** The node that has been write-locked is the one behind the name. */
  lemma GrantedAnchored(held: Held, t: Tree, index: Index, k: Token, h: Hold)
    requires Named(t, index) && Anchored(held, t)
    requires h.wnode.Some? ==>
      h.name.Some? && (h.nodeid, h.name.value) in index && h.wnode.value == index[(h.nodeid, h.name.value)]
    ensures Anchored(held[k := h], t)
  {
  }

  /** The state of the loop in `try_get_path` after i nodes */
  ghost predicate Climbing(t: Tree, words: LockWords, taken: LockWords, c: seq<nat>, i: nat, text: string,
                           now: LockWords, node: nat, path: string) {
    i < |c| && c[i] == node && now == Raised(taken, c[..i]) && path == Spell(t, c[..i]) + text &&
    forall j | 0 <= j < i :: c[j] in words && words[c[j]] >= 0
  }

  lemma ClimbStarts(t: Tree, words: LockWords, taken: LockWords, n: nat, c: seq<nat>, text: string)
    requires Linked(t) && Climb(t, n, c)
    ensures Climbing(t, words, taken, c, 0, text, taken, n, text)
  {
    RaiseNothing(taken, c[..0]);
    PathBuffers.RiseStarts(t, n, c, text);
  }

  lemma ClimbSoFar(t: Tree, words: LockWords, taken: LockWords, c: seq<nat>, i: nat, text: string, now: LockWords,
                   node: nat, path: string)
    requires Climbing(t, words, taken, c, i, text, now, node, path)
    ensures i < |c| && c[i] == node && now == Raised(taken, c[..i]) && path == Spell(t, c[..i]) + text
    ensures forall j | 0 <= j < i :: c[j] in words && words[c[j]] >= 0
  {
  }

  /** One round of it */
  lemma ClimbOn(t: Tree, words: LockWords, taken: LockWords, n: nat, c: seq<nat>, i: nat, text: string,
                now: LockWords, node: nat, path: string)
    requires Linked(t) && Climb(t, n, c) && Climbing(t, words, taken, c, i, text, now, node, path) && node != ROOT
    requires forall m | m in c :: m in words && m in taken && taken[m] == words[m]
    ensures i < |c| && c[i] == node && now == Raised(taken, c[..i])
    ensures forall j | 0 <= j < i :: c[j] in words && words[c[j]] >= 0
    ensures node in t && node in words && node in now && now[node] == words[node]
    ensures t[node].name == None ==> t[node].parent == None
    ensures t[node].parent.Some? ==> t[node].name.Some?
    ensures t[node].parent.Some? && now[node] >= 0 ==>
      Climbing(t, words, taken, c, i + 1, text, now[node := now[node] + 1], t[node].parent.value,
               "/" + t[node].name.value + path)
  {
    ClimbFacts(t, n, c);
    hide Climb, Linked, Spell, Raised;
    PathBuffers.ClimbNext(t, n, c, i);
    PathBuffers.SpellStep(t, c, i, text);
    RaiseOne(taken, c, i);
  }

  lemma RaiseNothing(words: LockWords, nodes: seq<nat>)
    requires nodes == []
    ensures Raised(words, nodes) == words
  {
  }

  lemma RaiseOne(words: LockWords, c: seq<nat>, i: nat)
    requires i < |c| && c[i] in words && c[i] !in c[..i]
    ensures var was := Raised(words, c[..i]);
            c[i] in was && was[c[i]] == words[c[i]] && Raised(words, c[..i + 1]) == was[c[i] := words[c[i]] + 1]
    ensures forall n | n in c[..i + 1] :: n == c[i] || n in c[..i]
  {
    assert c[..i + 1] == c[..i] + [c[i]];
  }

  lemma TheClimb(t: Tree, index: Index, n: nat) returns (c: seq<nat>)
    requires Named(t, index) && n in t
    ensures c != [] && Climb(t, n, c) && forall m | m in c :: m in t
  {
    c :| Climb(t, n, c);
    ClimbIn(t, n, c);
  }

  lemma MovedTwice(t: Tree, n: nat, dir: nat, name: string)
    ensures Moved(Unlinked(t, n), n, dir, name) == Moved(t, n, dir, name)
  {
  }

  /** The node to write-lock is a child of the directory, so it is not on the way up. */
  lemma TargetAside(t: Tree, index: Index, nodeid: nat, w: Option<nat>, name: string, c: seq<nat>)
    requires Named(t, index) && Climb(t, nodeid, c)
    requires w.Some? ==> (nodeid, name) in index && w.value == index[(nodeid, name)]
    ensures w.Some? ==> w.value in t && w.value !in c
  {
    if w.None? {
      return;
    }
    ClimbFacts(t, nodeid, c);
    forall i | 0 <= i < |c| ensures c[i] != w.value {
      if c[i] == w.value {
        ClimbSuffix(t, nodeid, c, i);
        ClimbDistinct(t, nodeid, c, 0, i + 1);
      }
    }
  }

  /** A climb met from below: its nodes are distinct, each leads to the next, the root is last. */
  lemma ClimbFacts(t: Tree, n: nat, c: seq<nat>)
    requires Linked(t) && Climb(t, n, c)
    ensures c[0] == n && forall i | 0 <= i < |c| :: c[i] in t && c[i] !in c[..i]
    ensures forall i | 0 <= i < |c| - 1 :: c[i] != ROOT && t[c[i]].parent == Some(c[i + 1])
    ensures forall i, j | 0 <= i < j < |c| :: c[i] != c[j]
  {
    forall i, j | 0 <= i < j < |c| ensures c[i] != c[j] {
      ClimbDistinct(t, n, c, i, j);
    }
    forall i | 0 <= i < |c| ensures c[i] in t {
      ClimbSuffix(t, n, c, i);
    }
    forall i | 0 <= i < |c| - 1 ensures c[i] != ROOT && t[c[i]].parent == Some(c[i + 1]) {
      ClimbSuffix(t, n, c, i);
      assert c[i..][1..][0] == c[i + 1];
    }
  }
}
