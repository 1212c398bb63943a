/** Two waiters for path locks that block each other for ever (lib/fuse.c). The head of the queue has its
    first path and wants a second one through a node that it reads already. A writer that waits behind
    it has marked that node, and the mark, which only counts the head, keeps the head from its second
    path. No call of any thread ever helps them. */
module Deadlock {
  import opened Lists
  import opened Wrappers
  import opened NodeTree
  import opened PathLocks
  import opened QueueProgress
  import opened Interleavings

  /** `k` alone reads through `n`, which carries the mark of a waiting writer. */
  ghost predicate Pinned(l: Locks, n: nat, k: Token) {
    n in l.words && l.words[n] < TREELOCK_WRITE && k in l.held && n in l.held[k].nodes &&
    forall j | j in l.held && j != k :: n !in l.held[j].nodes && l.held[j].wnode != Some(n)
  }

  /** The head has its first path, and its second one, along `c`, leads through `n`. */
  ghost predicate HeadBlocked(q: Waiter, t: Tree, n: nat, c: seq<nat>, id: nat) {
    q.PathWaiter? && q.id == id && !q.done && q.first_locked && !q.second_locked && q.path2.Some? &&
    Attached(t, q.path2.value.nodeid, c + [ROOT]) && n in c
  }

  /** The directory of the second path */
  function Second(q: Waiter): nat {
    if q.PathWaiter? && q.path2.Some? then q.path2.value.nodeid else 0
  }

  /** The writer waits for `n`. */
  predicate WriterBlocked(v: Waiter, index: Index, n: nat, id: nat) {
    v.PathWaiter? && v.id == id && !v.done && !v.first_locked && !v.second_locked && v.path2.None? &&
    TargetOf(index, v.path1) == Some(n)
  }

  /** The two are in the queue. */
  ghost predicate Waits(s: State, n: nat, c: seq<nat>, head: nat, writer: nat) {
    s.lockq != [] && HeadBlocked(s.lockq[0], s.t, n, c, head) && head != writer &&
    exists v :: v in s.lockq && WriterBlocked(v, s.index, n, writer)
  }

  ghost predicate Blocked(s: State, n: nat, c: seq<nat>, head: nat, writer: nat) {
    Waits(s, n, c, head, writer) && Pinned(s.l, n, (head, 1))
  }

  lemma BlockedFacts(s: State, n: nat, c: seq<nat>, head: nat, writer: nat)
    requires Waits(s, n, c, head, writer)
    ensures s.lockq != [] && s.lockq[0].id == head && head != writer && HeadBlocked(s.lockq[0], s.t, n, c, head)
    ensures Attached(s.t, Second(s.lockq[0]), c + [ROOT]) && n in c && n in c + [ROOT]
  {
  }

  lemma BlockedWriter(s: State, n: nat, c: seq<nat>, head: nat, writer: nat) returns (i: nat)
    requires Waits(s, n, c, head, writer)
    ensures 0 < i < |s.lockq| && WriterBlocked(s.lockq[i], s.index, n, writer)
  {
    var v :| v in s.lockq && WriterBlocked(v, s.index, n, writer);
    i :| 0 <= i < |s.lockq| && s.lockq[i] == v;
  }

  // ---------- the words ----------

  /** Nobody else gets a path through the node, or the node itself. */
  lemma PinnedAttempt(t: Tree, index: Index, k': Token, r: Request, l: Locks, err: Status, l': Locks, n: nat, k: Token)
    requires Pinned(l, n, k) && k' != k && Attempt(t, index, k', r, l, err, l')
    ensures Pinned(l', n, k) && l'.held[k] == l.held[k]
  {
    if err == Ok {
      WayIsFree(t, index, k', r, l, l');
    }
  }

  /** The words on the way of a successful attempt */
  lemma WayIsFree(t: Tree, index: Index, k: Token, r: Request, l: Locks, l': Locks)
    requires Attempt(t, index, k, r, l, Ok, l')
    ensures var h := l'.held[k];
      && (forall m | m in h.nodes :: m in l.words && l.words[m] >= 0)
      && (h.wnode.Some? ==> h.wnode.value in l.words && l.words[h.wnode.value] == 0)
  {
    var nodes := l'.held[k].nodes;
    assert StillThere(t, l'.held[k]) && Lockable(t, l.words, r.nodeid, TargetOf(index, r));
    var c :| Attached(t, r.nodeid, c) && Free(l.words, c);
    ClimbUnique(t, r.nodeid, c, nodes + [ROOT]);
    assert forall i | 0 <= i < |nodes| :: c[i] == nodes[i];
  }

  lemma PinnedFreed(l: Locks, k': Token, n: nat, k: Token)
    requires Pinned(l, n, k) && k' != k
    ensures Pinned(Freed(l, k'), n, k) && Freed(l, k').held[k] == l.held[k]
  {
  }

  lemma PinnedMarked(l: Locks, w: Option<nat>, err: Status, n: nat, k: Token)
    requires Pinned(l, n, k)
    ensures Pinned(Locks(l.held, Marked(l.words, w, err)), n, k)
  {
  }

  // ---------- the turns ----------

  /** The turn of any other waiter */
  lemma PinnedTurn(t: Tree, index: Index, q: Waiter, first: bool, l: Locks, turn: Turn, qe: Waiter, l': Locks, n: nat,
                   k: Token)
    requires Woken(t, index, q, first, l, turn, qe, l') && q.id != k.0 && Pinned(l, n, k)
    ensures Pinned(l', n, k) && l'.held[k] == l.held[k]
  {
    hide Attempt, Pinned, Freed, Tried;
    if q.PathWaiter? {
      if !q.first_locked {
        PinnedAttempt(t, index, (q.id, 1), q.path1, l, turn.err1, turn.mid, n, k);
      }
      if !Hard(turn.err1) && !q.second_locked && q.path2.Some? {
        PinnedAttempt(t, index, (q.id, 2), q.path2.value, turn.mid, turn.err2, turn.late, n, k);
      }
      PinnedFreed(turn.late, (q.id, 1), n, k);
      PinnedFreed(Freed(turn.late, (q.id, 1)), (q.id, 2), n, k);
    }
  }

  /** The head's turn gives it nothing. */
  lemma HeadStays(t: Tree, index: Index, q: Waiter, l: Locks, turn: Turn, qe: Waiter, l': Locks, n: nat, c: seq<nat>)
    requires Woken(t, index, q, true, l, turn, qe, l') && Supplied(turn)
    requires HeadBlocked(q, t, n, c, q.id) && Pinned(l, n, (q.id, 1))
    ensures qe == q && Pinned(l', n, (q.id, 1)) && l'.held[(q.id, 1)] == l.held[(q.id, 1)]
  {
    var r := q.path2.value;
    NoWayThrough(t, index, (q.id, 2), r, l, turn.err2, turn.late, n, c);
    PinnedAttempt(t, index, (q.id, 2), r, l, turn.err2, turn.late, n, (q.id, 1));
    hide Attempt, Pinned, Attached;
  }

  lemma NoWayThrough(t: Tree, index: Index, k: Token, r: Request, l: Locks, err: Status, l': Locks, n: nat, c: seq<nat>)
    requires Attempt(t, index, k, r, l, err, l') && err != NoMemory
    requires Attached(t, r.nodeid, c + [ROOT]) && n in c && n in l.words && l.words[n] < 0
    ensures err == Again
  {
    if err == Ok {
      SameWay(t, l'.held[k], c);
      WayIsFree(t, index, k, r, l, l');
    }
  }

  lemma SameWay(t: Tree, h: Hold, c: seq<nat>)
    requires StillThere(t, h) && Climb(t, h.nodeid, c + [ROOT])
    ensures h.nodes == c
  {
    ClimbUnique(t, h.nodeid, c + [ROOT], h.nodes + [ROOT]);
    assert (c + [ROOT])[..|c|] == c && (h.nodes + [ROOT])[..|h.nodes|] == h.nodes;
  }

  /** Nor does the writer's turn. */
  lemma WriterStays(t: Tree, index: Index, v: Waiter, l: Locks, turn: Turn, qe: Waiter, l': Locks, n: nat)
    requires Woken(t, index, v, false, l, turn, qe, l') && Supplied(turn) && WriterBlocked(v, index, n, v.id)
    requires n in l.words && l.words[n] != 0 && Reachable(t, v.path1.nodeid)
    ensures qe == v
  {
    hide Freed, Reachable, Marked;
    assert !Open(t, index, l.words, v.path1);
    assert turn.err1 == Again;
  }

  /** The writer's directory is on the way up from the node. */
  lemma WriterAttached(t: Tree, index: Index, v: Waiter, n: nat, c: seq<nat>, d: nat)
    requires Named(t, index) && WriterBlocked(v, index, n, v.id) && Attached(t, d, c + [ROOT]) && n in c
    ensures Reachable(t, v.path1.nodeid)
  {
    WriterParent(t, index, v, n);
    var all := c + [ROOT];
    var i :| 0 <= i < |c| && c[i] == n;
    assert all[i] == n;
    hide Acyclic, Indexes, Climb;
    NextUp(t, d, all, i);
  }

  lemma WriterParent(t: Tree, index: Index, v: Waiter, n: nat)
    requires Named(t, index) && WriterBlocked(v, index, n, v.id)
    ensures n in t && t[n].parent == Some(v.path1.nodeid)
  {
    IndexedNode(t, index, (v.path1.nodeid, v.path1.name.value));
  }

  /** The parent of a node on a way up to the root is attached. */
  lemma NextUp(t: Tree, d: nat, all: seq<nat>, i: nat)
    requires Linked(t) && Attached(t, d, all) && i + 1 < |all|
    ensures all[i] in t && all[i] != ROOT && t[all[i]].parent == Some(all[i + 1]) && Reachable(t, all[i + 1])
  {
    ClimbFacts(t, d, all);
    ClimbSuffix(t, d, all, i + 1);
    hide Climb;
    var up := all[i + 1..];
    assert up[|up| - 1] == ROOT && Attached(t, all[i + 1], up);
  }

  // ---------- a pass over the queue ----------

  lemma {:induction false} PassPinned(s: State, given: Locks, pass: Pass, lockq': seq<Waiter>, l': Locks, n: nat,
                                      c: seq<nat>, head: nat, i: nat)
    requires Passed(s.t, s.index, s.lockq, given, pass, lockq', l') && i <= |s.lockq| && |pass.locks| == |s.lockq| + 1
    requires forall turn | turn in pass.turns :: Supplied(turn)
    requires s.lockq != [] && HeadBlocked(s.lockq[0], s.t, n, c, head) && Pinned(given, n, (head, 1))
    requires forall j | 0 < j < |s.lockq| :: s.lockq[j].id != head
    ensures Pinned(pass.locks[i], n, (head, 1)) && pass.locks[i].held[(head, 1)] == given.held[(head, 1)]
  {
    if i > 0 {
      PassPinned(s, given, pass, lockq', l', n, c, head, i - 1);
      hide Woken, Pinned, HeadBlocked, Pruned, Supplied;
      var q, l, turn := s.lockq[i - 1], pass.locks[i - 1], pass.turns[i - 1];
      assert turn in pass.turns;
      if i == 1 {
        HeadId(q, s.t, n, c, head);
        HeadStays(s.t, s.index, q, l, turn, pass.tried[0], pass.locks[1], n, c);
      } else {
        PinnedTurn(s.t, s.index, q, false, l, turn, pass.tried[i - 1], pass.locks[i], n, (head, 1));
      }
    }
  }

  lemma HeadId(q: Waiter, t: Tree, n: nat, c: seq<nat>, head: nat)
    requires HeadBlocked(q, t, n, c, head)
    ensures q.id == head && q.PathWaiter? && !q.done && !Failed(q)
  {
  }

  /** Giving back other locks, with the pass that follows, leaves both blocked. */
  lemma GiveStays(s: State, given: Locks, pass: Pass, s': State, n: nat, c: seq<nat>, head: nat, writer: nat)
    requires Sound(s) && Waits(s, n, c, head, writer) && DoesGive(given, pass, s, s')
    requires Pinned(given, n, (head, 1)) && forall turn | turn in pass.turns :: Supplied(turn)
    ensures Blocked(s', n, c, head, writer)
  {
    hide Sound, Woken, Pinned, Waits, HeadBlocked, WriterBlocked, Supplied, Undisturbed, Reachable, Attached, Pruned;
    BlockedFacts(s, n, c, head, writer);
    var i := BlockedWriter(s, n, c, head, writer);
    var q, v := s.lockq[0], s.lockq[i];
    SoundNamed(s);
    WriterId(v, s.index, n, writer);
    WriterAttached(s.t, s.index, v, n, c, Second(q));
    OnlyHead(s, head);
    HeadId(q, s.t, n, c, head);
    PassPinned(s, given, pass, s'.lockq, s'.l, n, c, head, i);
    PassPinned(s, given, pass, s'.lockq, s'.l, n, c, head, |s.lockq|);
    assert pass.turns[0] in pass.turns && pass.turns[i] in pass.turns;
    HeadStays(s.t, s.index, q, pass.locks[0], pass.turns[0], pass.tried[0], pass.locks[1], n, c);
    PinnedWord(pass.locks[i], n, (head, 1));
    WriterStays(s.t, s.index, v, pass.locks[i], pass.turns[i], pass.tried[i], pass.locks[i + 1], n);
    PrunedHead(pass.tried);
    assert pass.tried[i] in pass.tried;
    BlockedAgain(s', n, c, head, writer, v);
  }

  lemma PrunedHead(lockq: seq<Waiter>)
    ensures forall q :: q in Pruned(lockq) <==> q in lockq && !Failed(q)
    ensures lockq != [] && !Failed(lockq[0]) ==> Pruned(lockq) != [] && Pruned(lockq)[0] == lockq[0]
  {
    PrunedKeeps(lockq);
  }

  lemma BlockedAgain(s: State, n: nat, c: seq<nat>, head: nat, writer: nat, v: Waiter)
    requires s.lockq != [] && HeadBlocked(s.lockq[0], s.t, n, c, head) && Pinned(s.l, n, (head, 1)) && head != writer
    requires v in s.lockq && WriterBlocked(v, s.index, n, writer)
    ensures Blocked(s, n, c, head, writer)
  {
  }

  lemma SoundNamed(s: State)
    requires Sound(s)
    ensures Named(s.t, s.index)
  {
  }

  lemma OnlyHead(s: State, head: nat)
    requires Sound(s) && s.lockq != [] && s.lockq[0].id == head
    ensures forall j | 0 < j < |s.lockq| :: s.lockq[j].id != head
  {
  }

  lemma PinnedWord(l: Locks, n: nat, k: Token)
    requires Pinned(l, n, k)
    ensures n in l.words && l.words[n] < TREELOCK_WRITE
  {
  }

  lemma WriterId(v: Waiter, index: Index, n: nat, writer: nat)
    requires WriterBlocked(v, index, n, writer)
    ensures v.id == writer && v.PathWaiter? && !v.done && !Failed(v)
  {
  }

  // ---------- the tree ----------

  /** Whoever may unlink or move a node on the way of the second path would have to read through `n`, or
      the node is read by the head. */
  lemma WayStays(s: State, k: Token, dir: nat, name: string, n: nat, c: seq<nat>, d: nat, head: nat)
    requires Sound(s) && Pinned(s.l, n, (head, 1)) && Attached(s.t, d, c + [ROOT]) && n in c
    requires LockedName(s.l, s.index, k, dir, name) && (dir, name) in s.index && k.0 != head
    ensures s.index[(dir, name)] !in c + [ROOT]
  {
    hide WordsOk, QueueOk, Acyclic, Indexes, StillThere;
    var m, all := s.index[(dir, name)], c + [ROOT];
    IndexedNode(s.t, s.index, (dir, name));
    LockedNode(s.l.held, s.t, s.index, s.l.words, k, dir, name);
    if i :| 0 <= i < |all| && all[i] == m {
      var j :| 0 <= j < |c| && c[j] == n;
      assert all[j] == n && all[|c|] == ROOT && i < |c|;
      if i < j {
        BelowInHold(s.t, s.l.held[k], all, d, i, j);
      } else {
        AboveInHold(s.t, s.l.held[(head, 1)], all, d, i, j);
      }
    }
  }

  /** A locked way holds with a node all nodes above it, but the root. */
  lemma AboveInHold(t: Tree, h: Hold, all: seq<nat>, d: nat, i: nat, j: nat)
    requires StillThere(t, h) && Climb(t, d, all) && j <= i < |all| - 1 && all[j] in h.nodes
    ensures all[i] in h.nodes
  {
    var way := h.nodes + [ROOT];
    var a :| 0 <= a < |h.nodes| && h.nodes[a] == all[j];
    assert way[a] == all[j];
    ClimbSuffix(t, h.nodeid, way, a);
    ClimbSuffix(t, d, all, j);
    ClimbUnique(t, all[j], way[a..], all[j..]);
    assert all[i] == all[j..][i - j] == way[a..][i - j] == way[a + (i - j)];
  }

  /** The way from the parent of a node holds what is above that node. */
  lemma BelowInHold(t: Tree, h: Hold, all: seq<nat>, d: nat, i: nat, j: nat)
    requires StillThere(t, h) && Linked(t) && Climb(t, d, all) && i < j < |all| - 1
    requires all[i] in t && t[all[i]].parent == Some(h.nodeid)
    ensures all[j] in h.nodes
  {
    var way := h.nodes + [ROOT];
    ClimbFacts(t, d, all);
    ClimbSuffix(t, d, all, i + 1);
    ClimbUnique(t, h.nodeid, way, all[i + 1..]);
    assert all[j] == all[i + 1..][j - i - 1] == way[j - i - 1];
  }

  /** A change of one node that is not on the way leaves the way. */
  lemma WayKept(t: Tree, t': Tree, m: nat, d: nat, c: seq<nat>)
    requires Attached(t, d, c + [ROOT]) && m !in c + [ROOT] && OnlyChanges(t, t', m)
    ensures Attached(t', d, c + [ROOT])
  {
    ClimbAvoids(t, t', m, d, c + [ROOT]);
  }

  /** The two stay blocked when the way, the words and the writer's target are as before. */
  lemma StillBlocked(s: State, s': State, n: nat, c: seq<nat>, head: nat, writer: nat)
    requires Blocked(s, n, c, head, writer) && s'.lockq == s.lockq
    requires s.lockq != [] && Attached(s'.t, Second(s.lockq[0]), c + [ROOT]) && Pinned(s'.l, n, (head, 1))
    requires forall key | key in s.index && s.index[key] == n :: key in s'.index && s'.index[key] == n
    ensures Blocked(s', n, c, head, writer)
  {
    hide Pinned, Attached;
    var i := BlockedWriter(s, n, c, head, writer);
    BlockedAgain(s', n, c, head, writer, s.lockq[i]);
  }

  lemma PinnedMoved(l: Locks, m: nat, n: nat, k: Token)
    requires Pinned(l, n, k)
    ensures Pinned(Locks(AfterMove(l.held, m), l.words), n, k)
  {
  }

  // ---------- every call ----------

  predicate SuppliedOut(out: Outcome) {
    forall turn | turn in out.pass.turns :: Supplied(turn)
  }

  lemma RemoveStays(s: State, id: nat, dir: nat, name: string, s': State, n: nat, c: seq<nat>, head: nat, writer: nat)
    requires Sound(s) && Blocked(s, n, c, head, writer) && DoesRemove(id, dir, name, s, s') && id != head
    requires LockedName(s.l, s.index, (id, 1), dir, name)
    ensures Blocked(s', n, c, head, writer)
  {
    hide Pinned, AfterMove, Sound, LockedName, Attached, Waits, HeadBlocked, SameOthers;
    BlockedFacts(s, n, c, head, writer);
    if (dir, name) in s.index {
      var m, d := s.index[(dir, name)], Second(s.lockq[0]);
      WayStays(s, (id, 1), dir, name, n, c, d, head);
      PinnedMoved(s.l, m, n, (head, 1));
      WayKept(s.t, s'.t, m, d, c);
      StillBlocked(s, s', n, c, head, writer);
    }
  }

  lemma RenameStays(s: State, id: nat, old_: (nat, string), new_: (nat, string), s': State, n: nat, c: seq<nat>,
                    head: nat, writer: nat)
    requires Sound(s) && Blocked(s, n, c, head, writer) && DoesRename(id, old_, new_, s, s') && id != head
    requires LockedName(s.l, s.index, (id, 1), old_.0, old_.1) && LockedName(s.l, s.index, (id, 2), new_.0, new_.1)
    ensures Blocked(s', n, c, head, writer)
  {
    hide Pinned, AfterMove, Sound, LockedName, Attached, Waits, HeadBlocked, SameOthers, SameHolds;
    BlockedFacts(s, n, c, head, writer);
    assert old_ == (old_.0, old_.1) && new_ == (new_.0, new_.1);
    if old_ in s.index {
      var a, d := s.index[old_], Second(s.lockq[0]);
      WayStays(s, (id, 1), old_.0, old_.1, n, c, d, head);
      if new_ in s.index {
        WayStays(s, (id, 2), new_.0, new_.1, n, c, d, head);
        var b := s.index[new_];
        PinnedMoved(s.l, b, n, (head, 1));
        PinnedMoved(Locks(AfterMove(s.l.held, b), s.l.words), a, n, (head, 1));
        WayKept(s.t, Unlinked(s.t, b), b, d, c);
        WayKept(Unlinked(s.t, b), s'.t, a, d, c);
      } else {
        PinnedMoved(s.l, a, n, (head, 1));
        WayKept(s.t, s'.t, a, d, c);
      }
      StillBlocked(s, s', n, c, head, writer);
    }
  }

  lemma CreateStays(s: State, a: nat, dir: nat, name: string, s': State, n: nat, c: seq<nat>, head: nat, writer: nat)
    requires Sound(s) && Blocked(s, n, c, head, writer) && a !in s.t && (dir, name) !in s.index
    requires s' == s.(t := Moved(s.t, a, dir, name), index := s.index[(dir, name) := a],
                      l := Locks(s.l.held, s.l.words[a := 0]))
    ensures Blocked(s', n, c, head, writer)
  {
    hide Pinned, Sound, Waits, HeadBlocked, Climb;
    BlockedFacts(s, n, c, head, writer);
    var d := Second(s.lockq[0]);
    ClimbIn(s.t, d, c + [ROOT]);
    WayKept(s.t, s'.t, a, d, c);
    PinnedWord(s.l, n, (head, 1));
    PinnedWords(s.l, s'.l, n, (head, 1));
    StillBlocked(s, s', n, c, head, writer);
  }

  lemma PinnedWords(l: Locks, l': Locks, n: nat, k: Token)
    requires Pinned(l, n, k) && l'.held == l.held && n in l'.words && n in l.words && l'.words[n] == l.words[n]
    ensures Pinned(l', n, k)
  {
  }

  lemma DeleteStays(s: State, a: nat, s': State, n: nat, c: seq<nat>, head: nat, writer: nat)
    requires Sound(s) && Blocked(s, n, c, head, writer) && a in s.t && a != ROOT && s.t[a].parent == None
    requires a in s.l.words && s.l.words[a] == 0 && s' == s.(t := s.t - {a}, l := Locks(s.l.held, s.l.words - {a}))
    ensures Blocked(s', n, c, head, writer)
  {
    hide Pinned, Waits, HeadBlocked, WordsOk, HoldsOk, Anchored, QueueOk, Acyclic, Indexes;
    BlockedFacts(s, n, c, head, writer);
    var d := Second(s.lockq[0]);
    var all := c + [ROOT];
    forall i | 0 <= i < |all| ensures all[i] != a {
      if i < |c| {
        NextUp(s.t, d, all, i);
      }
    }
    hide Sound, Climb, Linked;
    WayKept(s.t, s'.t, a, d, c);
    PinnedWord(s.l, n, (head, 1));
    PinnedWords(s.l, s'.l, n, (head, 1));
    StillBlocked(s, s', n, c, head, writer);
  }

  /** No call of any thread helps them, as long as no allocation fails. */
  lemma BlockedStays(call: Call, out: Outcome, s: State, s': State, n: nat, c: seq<nat>, head: nat, writer: nat)
    requires Sound(s) && Blocked(s, n, c, head, writer) && Does(call, out, s, s') && SuppliedOut(out)
    ensures Blocked(s', n, c, head, writer)
  {
    hide Sound, Attempt, HeadBlocked, Pinned, Waits, DoesGetBoth, DoesGive, DoesRemove, DoesRename, LockedName, Freed;
    BlockedFacts(s, n, c, head, writer);
    QueuedIds(s, n, c, head, writer);
    SoundNamed(s);
    match call
    case Get(id, r) =>
      PinnedAttempt(s.t, s.index, (id, 1), r, s.l, out.turn.err1, s'.l, n, (head, 1));
      QueueGrows(s, s', n, c, head, writer);
    case GetBoth(id, r1, r2) =>
      GetBothStays(s, id, r1, r2, out.turn, s', n, c, head, writer);
    case Give(id, _, _) =>
      PinnedFreed(s.l, (id, 1), n, (head, 1));
      GiveStays(s, Freed(s.l, (id, 1)), out.pass, s', n, c, head, writer);
    case GiveBoth(id, _, _, _, _) =>
      PinnedFreed(s.l, (id, 1), n, (head, 1));
      PinnedFreed(Freed(s.l, (id, 1)), (id, 2), n, (head, 1));
      GiveStays(s, Freed(Freed(s.l, (id, 1)), (id, 2)), out.pass, s', n, c, head, writer);
    case Leave(i) =>
      LeaveStays(s, i, s', n, c, head, writer);
    case Forget(_, _, _) =>
      QueueGrows(s, s', n, c, head, writer);
    case Remove(id, dir, name) =>
      RemoveStays(s, id, dir, name, s', n, c, head, writer);
    case Rename(id, olddir, oldname, newdir, newname) =>
      RenameStays(s, id, (olddir, oldname), (newdir, newname), s', n, c, head, writer);
    case Create(a, dir, name) =>
      CreateStays(s, a, dir, name, s', n, c, head, writer);
    case Delete(a) =>
      DeleteStays(s, a, s', n, c, head, writer);
  }

  /** A request that runs is neither of the two. */
  lemma QueuedIds(s: State, n: nat, c: seq<nat>, head: nat, writer: nat)
    requires Blocked(s, n, c, head, writer)
    ensures !Absent(s.lockq, head) && !Absent(s.lockq, writer)
  {
    assert s.lockq[0] in s.lockq;
  }

  lemma QueueGrows(s: State, s': State, n: nat, c: seq<nat>, head: nat, writer: nat)
    requires Blocked(s, n, c, head, writer) && s.lockq <= s'.lockq && s'.t == s.t && s'.index == s.index
    requires Pinned(s'.l, n, (head, 1))
    ensures Blocked(s', n, c, head, writer)
  {
    var v :| v in s.lockq && WriterBlocked(v, s.index, n, writer);
    assert v in s'.lockq;
  }

  lemma GetBothStays(s: State, id: nat, r1: Request, r2: Request, turn: Turn, s': State, n: nat, c: seq<nat>, head: nat,
                     writer: nat)
    requires Blocked(s, n, c, head, writer) && DoesGetBoth(id, r1, r2, turn, s, s') && id != head
    ensures Blocked(s', n, c, head, writer)
  {
    hide Attempt, HeadBlocked, WriterBlocked, Pinned, Marked;
    PinnedAttempt(s.t, s.index, (id, 1), r1, s.l, turn.err1, turn.mid, n, (head, 1));
    if turn.err1 == Ok {
      PinnedAttempt(s.t, s.index, (id, 2), r2, turn.mid, turn.err2, turn.late, n, (head, 1));
    }
    PinnedMarked(s.l, TargetOf(s.index, if turn.err1 == Ok then r2 else r1),
                 if turn.err1 == Ok then turn.err2 else turn.err1, n, (head, 1));
    QueueGrows(s, s', n, c, head, writer);
  }

  lemma LeaveStays(s: State, i: nat, s': State, n: nat, c: seq<nat>, head: nat, writer: nat)
    requires Blocked(s, n, c, head, writer) && i < |s.lockq| && (s.lockq[i].PathWaiter? ==> s.lockq[i].done)
    requires s' == s.(lockq := s.lockq[..i] + s.lockq[i + 1..])
    ensures Blocked(s', n, c, head, writer)
  {
    var v :| v in s.lockq && WriterBlocked(v, s.index, n, writer);
    var j :| 0 <= j < |s.lockq| && s.lockq[j] == v;
    assert i != 0 && j != i;
    assert s'.lockq[if j < i then j else j - 1] == v;
  }

  /** Once blocked, the two requests are blocked for ever: over any run of calls, whoever makes them. */
  lemma {:induction false} BlockedForever(states: seq<State>, calls: seq<Call>, outs: seq<Outcome>, n: nat, c: seq<nat>,
                                          head: nat, writer: nat)
    requires Runs(states, calls, outs) && Blocked(states[0], n, c, head, writer)
    requires forall out | out in outs :: SuppliedOut(out)
    ensures Blocked(states[|calls|], n, c, head, writer)
    decreases |calls|
  {
    hide Does, Sound, Blocked, SuppliedOut;
    if calls != [] {
      var k := |calls| - 1;
      RunsLess(states, calls, outs, 0);
      assert outs[k] in outs && forall out | out in outs[..k] :: out in outs;
      BlockedForever(states[..k + 1], calls[..k], outs[..k], n, c, head, writer);
      BlockedStays(calls[k], outs[k], states[k], states[k + 1], n, c, head, writer);
    }
  }

  // ---------- a run that gets there ----------

  // Below a directory a (node 2) are the directories b and c (nodes 3 and 4). Request 9 write-locks c.
  // Request 7 wants a name in b and one in c; it is queued, and gets its first path as the head of the
  // queue when request 10 gives its own path back. Request 8 wants to write a, which 7 and 9 read
  // through, and marks it. Then 9 gives back what it has.

  function Words(a: int, b: int, c: int): LockWords {
    map[ROOT := 0, 2 := a, 3 := b, 4 := c]
  }

  function RequestB(s: StuckNames): Request {
    Request(3, Some(s.x), true)
  }

  function RequestC(s: StuckNames): Request {
    Request(4, Some(s.y), true)
  }

  function WriteA(s: StuckNames): Request {
    Request(ROOT, Some(s.a), true)
  }

  function WriteC(s: StuckNames): Request {
    Request(2, Some(s.c), true)
  }

  lemma StuckOk(s: StuckNames, words: LockWords)
    requires s.b != s.c && words.Keys == {ROOT, 2, 3, 4}
    ensures TreeOk(StuckTree(s), StuckIndex(s), words)
  {
    StuckNamed(s);
    hide Named;
    assert StuckTree(s).Keys == {ROOT, 2, 3, 4};
  }

  lemma Targets(s: StuckNames)
    requires s.b != s.c
    ensures TargetOf(StuckIndex(s), RequestB(s)) == None && TargetOf(StuckIndex(s), RequestC(s)) == None
    ensures TargetOf(StuckIndex(s), WriteA(s)) == Some(2) && TargetOf(StuckIndex(s), WriteC(s)) == Some(4)
  {
  }

  /** One attempt in the tree of the run */
  lemma Try(s: StuckNames, k: Token, r: Request, l: Locks, err: Status, l': Locks, c: seq<nat>)
    requires s.b != s.c && l.words.Keys == {ROOT, 2, 3, 4} && Attached(StuckTree(s), r.nodeid, c + [ROOT])
    requires Attempt(StuckTree(s), StuckIndex(s), k, r, l, err, l') && err != NoMemory
    ensures err == Ok || err == Again
    ensures err == Ok <==> Clear(l.words, TargetOf(StuckIndex(s), r), c)
    ensures err == Ok ==> k in l'.held && l'.held[k].nodes == c && l'.held[k].wnode == TargetOf(StuckIndex(s), r)
    ensures err == Ok ==>
      l' == Locks(l.held[k := l'.held[k]], Raised(WithWord(l.words, TargetOf(StuckIndex(s), r), TREELOCK_WRITE), c))
    ensures err == Ok ==> l'.held[k].nodeid == r.nodeid
    ensures err == Again ==> l' == Locks(l.held, Marked(l.words, TargetOf(StuckIndex(s), r), Again))
  {
    StuckOk(s, l.words);
    AttemptOn(StuckTree(s), StuckIndex(s), k, r, l, err, l', c);
    hide TreeOk, Clear, Attached, StuckTree, StuckIndex, Open, Reachable, StillThere, TargetOf;
  }

  /** Request 9 gets c. */
  lemma GetsC(s: StuckNames, l: Locks, err: Status, l': Locks)
    requires s.b != s.c && l == Locks(map[], Words(0, 0, 0))
    requires Attempt(StuckTree(s), StuckIndex(s), (9, 1), WriteC(s), l, err, l') && err != NoMemory
    ensures err == Ok && l'.words == Words(1, 0, TREELOCK_WRITE) && l'.held.Keys == {(9, 1)}
    ensures l'.held[(9, 1)].nodes == [2] && l'.held[(9, 1)].wnode == Some(4) && l'.held[(9, 1)].nodeid == 2
  {
    StuckClimbs(s);
    hide Attempt, Attached, StuckTree;
    Try(s, (9, 1), WriteC(s), l, err, l', [2]);
    Targets(s);
    assert l'.words == Words(1, 0, TREELOCK_WRITE);
  }

  /** Request 7 gets its first path as long as nobody writes on it, but not the second while c is written. */
  lemma GetsB(s: StuckNames, l: Locks, err: Status, l': Locks)
    requires s.b != s.c && l.words == Words(1, 0, TREELOCK_WRITE)
    requires Attempt(StuckTree(s), StuckIndex(s), (7, 1), RequestB(s), l, err, l') && err != NoMemory
    ensures err == Ok && l'.words == Words(2, 1, TREELOCK_WRITE) && (7, 1) in l'.held
    ensures l'.held == l.held[(7, 1) := l'.held[(7, 1)]]
    ensures l'.held[(7, 1)].nodes == [3, 2] && l'.held[(7, 1)].wnode == None
  {
    StuckClimbs(s);
    hide Attempt, Attached, StuckTree;
    Try(s, (7, 1), RequestB(s), l, err, l', [3, 2]);
    Targets(s);
    hide StuckIndex, TargetOf;
    assert l'.words == Words(2, 1, TREELOCK_WRITE);
  }

  lemma MissesC(s: StuckNames, l: Locks, err: Status, l': Locks)
    requires s.b != s.c && l.words == Words(2, 1, TREELOCK_WRITE)
    requires Attempt(StuckTree(s), StuckIndex(s), (7, 2), RequestC(s), l, err, l') && err != NoMemory
    ensures err == Again && l' == l
  {
    StuckClimbs(s);
    hide Attempt, Attached, StuckTree;
    Try(s, (7, 2), RequestC(s), l, err, l', [4, 2]);
    Targets(s);
    hide StuckIndex, TargetOf;
    assert 4 in [4, 2];
  }

  /** Request 10 reads the root only. */
  lemma GetsRoot(s: StuckNames, l: Locks, err: Status, l': Locks)
    requires s.b != s.c && l.words == Words(1, 0, TREELOCK_WRITE) && (10, 1) !in l.held
    requires Attempt(StuckTree(s), StuckIndex(s), (10, 1), Request(ROOT, None, false), l, err, l') && err != NoMemory
    ensures err == Ok && (10, 1) in l'.held && l'.held[(10, 1)].nodeid == ROOT && l'.held[(10, 1)].wnode == None
    ensures l'.words == l.words && l'.held == l.held[(10, 1) := l'.held[(10, 1)]] && Freed(l', (10, 1)) == l
  {
    StuckClimbs(s);
    hide Attempt, Attached, StuckTree, StuckIndex;
    Try(s, (10, 1), Request(ROOT, None, false), l, err, l', []);
    assert l'.words == l.words && l'.held - {(10, 1)} == l.held;
    assert Lowered(l'.words, []) == l.words;
  }

  /** Request 8 marks a. */
  lemma MarksA(s: StuckNames, l: Locks, err: Status, l': Locks)
    requires s.b != s.c && l.words == Words(2, 1, TREELOCK_WRITE)
    requires Attempt(StuckTree(s), StuckIndex(s), (8, 1), WriteA(s), l, err, l') && err != NoMemory
    ensures err == Again && l' == Locks(l.held, Words(TREELOCK_WAIT_OFFSET + 2, 1, TREELOCK_WRITE))
  {
    StuckClimbs(s);
    hide Attempt, Attached, StuckTree;
    Try(s, (8, 1), WriteA(s), l, err, l', []);
    Targets(s);
    hide StuckIndex, TargetOf;
  }

  // ---------- its states ----------

  ghost predicate Within(s: StuckNames, x: State) {
    x.t == StuckTree(s) && x.index == StuckIndex(s)
  }

  ghost predicate Holds9(h: Hold) {
    h.nodes == [2] && h.wnode == Some(4) && h.nodeid == 2
  }

  function Waiter7(s: StuckNames, first: bool): Waiter {
    PathWaiter(7, RequestB(s), Some(RequestC(s)), first, false, None, None, false, Ok)
  }

  function Waiter8(s: StuckNames): Waiter {
    Waiting(8, WriteA(s), None)
  }

  /** 9 has locked c, and the queue is as given. */
  ghost predicate CWritten(s: StuckNames, x: State, lockq: seq<Waiter>) {
    Within(s, x) && x.lockq == lockq && x.l.words == Words(1, 0, TREELOCK_WRITE) && x.l.held.Keys == {(9, 1)} &&
    Holds9(x.l.held[(9, 1)])
  }

  /** 7 has its first path, and the queue is as given. */
  ghost predicate BRead(s: StuckNames, x: State, a: int, lockq: seq<Waiter>) {
    Within(s, x) && x.lockq == lockq && x.l.words == Words(a, 1, TREELOCK_WRITE) && x.l.held.Keys == {(9, 1), (7, 1)} &&
    Holds9(x.l.held[(9, 1)]) && x.l.held[(7, 1)].nodes == [3, 2] && x.l.held[(7, 1)].wnode == None
  }

  lemma Gets9(s: StuckNames, x: State, out: Outcome, x': State)
    requires s.b != s.c && Within(s, x) && x.lockq == [] && x.l == Locks(map[], Words(0, 0, 0))
    requires Does(Get(9, WriteC(s)), out, x, x') && Supplied(out.turn)
    ensures CWritten(s, x', [])
  {
    GetsC(s, x.l, out.turn.err1, x'.l);
    hide Attempt, StuckTree, StuckIndex, Words;
  }

  lemma Queues7(s: StuckNames, x: State, out: Outcome, x': State)
    requires s.b != s.c && CWritten(s, x, []) && Does(GetBoth(7, RequestB(s), RequestC(s)), out, x, x')
    requires Supplied(out.turn)
    ensures CWritten(s, x', [Waiter7(s, false)])
  {
    hide Attempt, StuckTree, StuckIndex, Words, TargetOf;
    GetsB(s, x.l, out.turn.err1, out.turn.mid);
    MissesC(s, out.turn.mid, out.turn.err2, out.turn.late);
    Targets(s);
    assert x'.l == x.l;
    assert [] + [Waiter7(s, false)] == [Waiter7(s, false)];
  }

  lemma Gets10(s: StuckNames, x: State, out: Outcome, x': State)
    requires s.b != s.c && CWritten(s, x, [Waiter7(s, false)])
    requires Does(Get(10, Request(ROOT, None, false)), out, x, x') && Supplied(out.turn)
    ensures x'.t == x.t && x'.index == x.index && x'.lockq == x.lockq && Freed(x'.l, (10, 1)) == x.l
    ensures (10, 1) in x'.l.held && x'.l.held[(10, 1)].nodeid == ROOT && x'.l.held[(10, 1)].wnode == None
    ensures x'.l.held.Keys == {(9, 1), (10, 1)}
  {
    hide Attempt, StuckTree, StuckIndex, Words, Freed;
    GetsRoot(s, x.l, out.turn.err1, x'.l);
  }

  /** When 10 gives its path back, 7 gets its first one. */
  lemma Gives10(s: StuckNames, x: State, given: Locks, pass: Pass, x': State)
    requires s.b != s.c && CWritten(s, x.(l := given), [Waiter7(s, false)]) && DoesGive(given, pass, x, x')
    requires forall turn | turn in pass.turns :: Supplied(turn)
    ensures BRead(s, x', 2, [Waiter7(s, true)])
  {
    hide Attempt, StuckTree, StuckIndex, Words, TargetOf, Freed, Undisturbed;
    var turn := pass.turns[0];
    assert turn in pass.turns;
    GetsB(s, given, turn.err1, turn.mid);
    MissesC(s, turn.mid, turn.err2, turn.late);
    Targets(s);
    assert pass.tried == [Waiter7(s, true)] && pass.tried[1..] == [];
    PrunedKeeps(pass.tried);
    assert forall q | q in pass.tried :: !Failed(q);
  }

  lemma Marks8(s: StuckNames, x: State, out: Outcome, x': State)
    requires s.b != s.c && BRead(s, x, 2, [Waiter7(s, true)])
    requires Does(Get(8, WriteA(s)), out, x, x') && Supplied(out.turn)
    ensures BRead(s, x', TREELOCK_WAIT_OFFSET + 2, [Waiter7(s, true), Waiter8(s)])
  {
    hide Attempt, StuckTree, StuckIndex, Words, TargetOf;
    MarksA(s, x.l, out.turn.err1, x'.l);
    assert [Waiter7(s, true)] + [Waiter8(s)] ==
           [Waiter7(s, true), Waiter8(s)];
  }

  /** What 9 leaves when it gives c back */
  lemma Leaves9(s: StuckNames, x: State)
    requires s.b != s.c && BRead(s, x, TREELOCK_WAIT_OFFSET + 2, [Waiter7(s, true), Waiter8(s)])
    ensures Waits(x, 2, [4, 2], 7, 8) && Pinned(Freed(x.l, (9, 1)), 2, (7, 1))
  {
    StuckClimbs(s);
    Targets(s);
    hide StuckIndex, StuckTree, TargetOf, Attached;
    var given := Freed(x.l, (9, 1));
    assert given.words[2] == TREELOCK_WAIT_OFFSET + 1 && 2 in [3, 2] && 2 in [4, 2];
    assert x.lockq[1] in x.lockq && WriterBlocked(x.lockq[1], x.index, 2, 8);
  }

  lemma SmallHeld(held: Held, keys: set<Token>)
    requires held.Keys <= keys
    ensures |held| <= |keys|
  {
    SubsetSize(held.Keys, keys);
  }

  lemma StuckTreeMade(s: StuckNames)
    ensures Moved(Moved(Moved(map[ROOT := Link(None, Some("/"))], 2, ROOT, s.a), 3, 2, s.b), 4, 2, s.c) == StuckTree(s)
    ensures map[][(ROOT, s.a) := 2][(2, s.b) := 3][(2, s.c) := 4] == StuckIndex(s)
    ensures map[ROOT := 0][2 := 0][3 := 0][4 := 0] == Words(0, 0, 0)
  {
  }

  lemma StuckKeys(s: StuckNames)
    ensures StuckTree(s).Keys == {ROOT, 2, 3, 4}
  {
  }

  method Lock9(m: Mount, s: StuckNames)
    requires Sound(StateOf(m)) && s.b != s.c && Within(s, StateOf(m)) && m.lockq == []
    requires m.Now() == Locks(map[], Words(0, 0, 0))
    modifies m
    ensures Sound(StateOf(m)) && CWritten(s, StateOf(m), [])
  {
    hide Sound, Does, CWritten, StuckTree, StuckIndex, Words;
    ghost var x := StateOf(m);
    StuckKeys(s);
    var out := Perform(m, Get(9, WriteC(s)), true);
    Gets9(s, x, out, StateOf(m));
  }

  method Wait7(m: Mount, s: StuckNames)
    requires Sound(StateOf(m)) && s.b != s.c && CWritten(s, StateOf(m), [])
    modifies m
    ensures Sound(StateOf(m)) && CWritten(s, StateOf(m), [Waiter7(s, false)])
  {
    hide Sound, Does, StuckTree, StuckIndex, Words, Holds9;
    ghost var x := StateOf(m);
    StuckKeys(s);
    SmallHeld(m.held, {(9, 1)});
    var out := Perform(m, GetBoth(7, RequestB(s), RequestC(s)), true);
    hide CWritten;
    Queues7(s, x, out, StateOf(m));
  }

  method Pass10(m: Mount, s: StuckNames)
    requires Sound(StateOf(m)) && s.b != s.c && CWritten(s, StateOf(m), [Waiter7(s, false)])
    modifies m
    ensures Sound(StateOf(m)) && BRead(s, StateOf(m), 2, [Waiter7(s, true)])
  {
    hide Sound, StuckTree, StuckIndex, Words, Holds9, DoesGet, DoesGive;
    ghost var x := StateOf(m);
    StuckKeys(s);
    SmallHeld(m.held, {(9, 1)});
    var out := Perform(m, Get(10, Request(ROOT, None, false)), true);
    Gets10(s, x, out, StateOf(m));
    SmallHeld(m.held, {(9, 1), (10, 1)});
    ghost var y := StateOf(m);
    out := Perform(m, Give(10, ROOT, None), true);
    assert y.(l := x.l) == x;
    hide CWritten, BRead;
    Gives10(s, y, x.l, out.pass, StateOf(m));
  }

  method Mark8(m: Mount, s: StuckNames)
    requires Sound(StateOf(m)) && s.b != s.c && BRead(s, StateOf(m), 2, [Waiter7(s, true)])
    modifies m
    ensures Sound(StateOf(m)) && BRead(s, StateOf(m), TREELOCK_WAIT_OFFSET + 2, [Waiter7(s, true), Waiter8(s)])
  {
    hide Sound, Does, StuckTree, StuckIndex, Words, Holds9;
    ghost var x := StateOf(m);
    StuckKeys(s);
    SmallHeld(m.held, {(9, 1), (7, 1)});
    var out := Perform(m, Get(8, WriteA(s)), true);
    hide BRead;
    Marks8(s, x, out, StateOf(m));
  }

  method Free9(m: Mount, s: StuckNames)
    requires Sound(StateOf(m)) && s.b != s.c
    requires BRead(s, StateOf(m), TREELOCK_WAIT_OFFSET + 2, [Waiter7(s, true), Waiter8(s)])
    modifies m
    ensures Sound(StateOf(m)) && Blocked(StateOf(m), 2, [4, 2], 7, 8)
  {
    hide Sound, StuckTree, StuckIndex, Words, DoesGive, Waits, Pinned, Freed;
    ghost var x := StateOf(m);
    SmallHeld(m.held, {(9, 1), (7, 1)});
    Leaves9(s, x);
    var out := Perform(m, Give(9, 2, Some(4)), true);
    hide BRead, Blocked;
    GiveStays(x, Freed(x.l, (9, 1)), out.pass, StateOf(m), 2, [4, 2], 7, 8);
  }

  /** A new mount on which the two requests come to block each other: by `BlockedForever` they stay so. */
  method ReachBlocked(s: StuckNames) returns (m: Mount)
    requires s.b != s.c
    ensures fresh(m) && Sound(StateOf(m)) && Blocked(StateOf(m), 2, [4, 2], 7, 8)
  {
    hide Attempt, WordsOk, HoldsOk, Anchored, QueueOk, Named, Passed, Undisturbed, DoesGetBoth, DoesGive, Freed,
      Blocked;
    m := new Mount();
    m.NewNode(2, ROOT, s.a);
    m.NewNode(3, 2, s.b);
    m.NewNode(4, 2, s.c);
    StuckTreeMade(s);
    hide StuckTree, StuckIndex, Words;
    ghost var x := StateOf(m);
    assert Sound(x) && Within(s, x) && x.l == Locks(map[], Words(0, 0, 0)) && x.lockq == [];
    hide Sound;
    Lock9(m, s);
    Wait7(m, s);
    Pass10(m, s);
    Mark8(m, s);
    Free9(m, s);
  }
}
