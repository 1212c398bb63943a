/** What the wait queue for path locks is for (lib/fuse.c): at most its head is partly locked, so the
    waiters cannot block each other in a circle. That is so, but for one case: the mark that a writer
    leaves on a node which the head itself reads through. */
module QueueProgress {
  import opened Wrappers
  import opened NodeTree
  import opened PathLocks

  /** Two paths that one request can lock together: neither target is on the way up of the other
      path, and the targets differ. */
  predicate Apart(w1: Option<nat>, c1: seq<nat>, w2: Option<nat>, c2: seq<nat>) {
    (w1.Some? ==> w1 != w2 && w1.value !in c2) && (w2.Some? ==> w2.value !in c1)
  }

  /** No node that both paths read through carries the mark of a waiting writer. */
  ghost predicate Unmarked(words: LockWords, c1: seq<nat>, c2: seq<nat>) {
    forall n | n in c1 && n in c2 && n in words :: words[n] >= TREELOCK_WRITE
  }

  /** The words when one path is locked and no other. */
  ghost predicate OneHolds(words: LockWords, w: Option<nat>, c: seq<nat>) {
    forall n | n in words ::
      if w == Some(n) then words[n] == TREELOCK_WRITE
      else if n in c then words[n] == 1 || words[n] == TREELOCK_WAIT_OFFSET + 1
      else words[n] == 0
  }

  lemma HeldByOne(held: Held, words: LockWords, k: Token)
    requires WordsOk(held, words) && k in held && held == map[k := held[k]]
    ensures OneHolds(words, held[k].wnode, held[k].nodes)
  {
    forall n | n in words
      ensures if held[k].wnode == Some(n) then words[n] == TREELOCK_WRITE
              else if n in held[k].nodes then words[n] == 1 || words[n] == TREELOCK_WAIT_OFFSET + 1
              else words[n] == 0
    {
      assert WordOk(held, words[n], n);
      assert Readers(held, n) == if n in held[k].nodes then {k} else {};
      assert Writes(held, k, n) <==> held[k].wnode == Some(n);
    }
  }

  lemma HeldByNone(held: Held, words: LockWords)
    requires WordsOk(held, words) && held == map[]
    ensures forall n | n in words :: words[n] == 0
  {
    forall n | n in words ensures words[n] == 0 {
      assert WordOk(held, words[n], n);
      assert Readers(held, n) == {};
    }
  }

  ghost predicate Clear(words: LockWords, w: Option<nat>, c: seq<nat>) {
    (w.Some? ==> w.value in words && words[w.value] == 0) && forall n | n in c :: n in words && words[n] >= 0
  }

  /** When an attempt succeeds, in terms of the words. */
  lemma AttemptOn(t: Tree, index: Index, k: Token, r: Request, l: Locks, err: Status, l': Locks, c: seq<nat>)
    requires TreeOk(t, index, l.words) && Attempt(t, index, k, r, l, err, l') && Attached(t, r.nodeid, c + [ROOT])
    requires err != NoMemory
    ensures err == Ok || err == Again
    ensures err == Ok <==> Clear(l.words, TargetOf(index, r), c)
    ensures err == Ok ==>
      l' == Locks(l.held[k := l'.held[k]], Raised(WithWord(l.words, TargetOf(index, r), TREELOCK_WRITE), c))
    ensures err == Ok ==> k in l'.held && l'.held[k].nodes == c && l'.held[k].wnode == TargetOf(index, r)
  {
    hide TreeOk, Climb, Spell, Raised;
    var d := c + [ROOT];
    assert forall i | 0 <= i < |c| :: d[i] == c[i];
    forall e | Attached(t, r.nodeid, e) ensures e == d {
      ClimbUnique(t, r.nodeid, d, e);
    }
    assert Free(l.words, d) <==> forall n | n in c :: n in l.words && l.words[n] >= 0;
    if err == Ok {
      var nodes := l'.held[k].nodes;
      assert (nodes + [ROOT])[..|nodes|] == nodes && d[..|c|] == c;
    }
  }

  /** The second path beside the first. */
  lemma Beside(words: LockWords, w1: Option<nat>, c1: seq<nat>, w2: Option<nat>, c2: seq<nat>)
    requires OneHolds(words, w1, c1) && (w2.Some? ==> w2.value in words) && (forall n | n in c1 + c2 :: n in words)
    requires w1.Some? ==> w1.value in words
    ensures Clear(words, w2, c2) <==> Apart(w1, c1, w2, c2) && Unmarked(words, c1, c2)
  {
    assert forall n | n in c2 :: n in c1 + c2;
    assert forall n | n in c1 :: n in c1 + c2;
  }

  lemma ApartAlike(words: LockWords, w1: Option<nat>, c1: seq<nat>, w2: Option<nat>, c2: seq<nat>)
    ensures Apart(w1, c1, w2, c2) <==> Apart(w2, c2, w1, c1)
    ensures Unmarked(words, c1, c2) <==> Unmarked(words, c2, c1)
  {
  }

  lemma SameKeys(t: Tree, index: Index, words: LockWords, words': LockWords)
    requires TreeOk(t, index, words) && words'.Keys == words.Keys
    ensures TreeOk(t, index, words')
  {
  }

  lemma InTree(t: Tree, index: Index, words: LockWords, r: Request, c: seq<nat>)
    requires TreeOk(t, index, words) && Attached(t, r.nodeid, c + [ROOT])
    ensures words.Keys == t.Keys && forall n | n in c :: n in words
    ensures TargetOf(index, r).Some? ==> TargetOf(index, r).value in words && TargetOf(index, r).value !in c
  {
    ClimbIn(t, r.nodeid, c + [ROOT]);
    assert forall n | n in c :: n in c + [ROOT];
    TargetAside(t, index, r.nodeid, TargetOf(index, r), r.name.GetOr(""), c + [ROOT]);
  }

  lemma OneLocked(t: Tree, held: Held, words: LockWords, k: Token, c: seq<nat>)
    requires WordsOk(held, words) && HoldsOk(held, t) && k in held && held.Keys == {k} && words.Keys == t.Keys
    requires Attached(t, held[k].nodeid, c + [ROOT])
    ensures OneHolds(words, held[k].wnode, c) && (held[k].wnode.Some? ==> held[k].wnode.value in words)
  {
    assert StillThere(t, held[k]);
    ClimbUnique(t, held[k].nodeid, c + [ROOT], held[k].nodes + [ROOT]);
    assert (c + [ROOT])[..|c|] == c && (held[k].nodes + [ROOT])[..|held[k].nodes|] == held[k].nodes;
    assert held == map[k := held[k]];
    HeldByOne(held, words, k);
  }

  /** From free words, locking one path. */
  lemma FirstTaken(words: LockWords, w: Option<nat>, c: seq<nat>, c2: seq<nat>)
    requires (forall n | n in words :: words[n] == 0) && (forall n | n in c :: n in words)
    requires w.Some? ==> w.value in words && w.value !in c
    ensures Clear(words, w, c)
    ensures Unmarked(words, c, c2) && Unmarked(Raised(WithWord(words, w, TREELOCK_WRITE), c), c, c2)
    ensures OneHolds(Raised(WithWord(words, w, TREELOCK_WRITE), c), w, c)
    ensures Raised(WithWord(words, w, TREELOCK_WRITE), c).Keys == words.Keys
  {
  }

  predicate Served(q: Waiter) {
    q.PathWaiter? && q.done && q.err == Ok
  }

  /** The element waits for two paths, joined to the root by `c1` and `c2`, and does not have both. */
  ghost predicate WantsTwo(t: Tree, q: Waiter, c1: seq<nat>, c2: seq<nat>) {
    q.PathWaiter? && q.path2.Some? && !q.done && !(q.first_locked && q.second_locked) &&
    Attached(t, q.path1.nodeid, c1 + [ROOT]) && Attached(t, q.path2.value.nodeid, c2 + [ROOT])
  }

  /** The node that the first path has write-locked, or would. */
  function Target1(index: Index, q: Waiter): Option<nat> {
    if q.ForgetWaiter? then None else if q.first_locked then q.wnode1 else TargetOf(index, q.path1)
  }

  function Target2(index: Index, q: Waiter): Option<nat> {
    if q.ForgetWaiter? || q.path2.None? then None
    else if q.second_locked then q.wnode2 else TargetOf(index, q.path2.value)
  }

  /** When nobody but the head of the queue holds a lock, memory suffices and both directories are
      joined to the root, its turn ends with both locks if and only if the two paths are apart and
      no writer has marked a node on both. The mark is that of a waiter behind it, put there
      because the head itself reads through the node: then the two wait for each other for ever. */
  lemma HeadServed(t: Tree, index: Index, held: Held, words: LockWords, q: Waiter, turn: Turn, qe: Waiter, l': Locks,
                   c1: seq<nat>, c2: seq<nat>)
    requires WantsTwo(t, q, c1, c2) && held.Keys <= {(q.id, 1), (q.id, 2)}
    requires TreeOk(t, index, words) && WordsOk(held, words) && HoldsOk(held, t) && WaiterOk(q, held, t)
    requires Woken(t, index, q, true, Locks(held, words), turn, qe, l') && Supplied(turn)
    ensures Served(qe) <==> Apart(Target1(index, q), c1, Target2(index, q), c2) && Unmarked(words, c1, c2)
    ensures !Failed(qe)
  {
    hide TreeOk, WordsOk, HoldsOk, Attempt, Unmarked, Apart, OneHolds, Attached, Freed;
    var w1, w2 := Target1(index, q), Target2(index, q);
    var l := Locks(held, words);
    InTree(t, index, words, q.path1, c1);
    InTree(t, index, words, q.path2.value, c2);
    if q.first_locked {
      OneLocked(t, held, words, (q.id, 1), c1);
      AttemptOn(t, index, (q.id, 2), q.path2.value, l, turn.err2, turn.late, c2);
      Beside(words, w1, c1, w2, c2);
    } else if q.second_locked {
      OneLocked(t, held, words, (q.id, 2), c2);
      AttemptOn(t, index, (q.id, 1), q.path1, l, turn.err1, turn.mid, c1);
      Beside(words, w2, c2, w1, c1);
      ApartAlike(words, w1, c1, w2, c2);
    } else {
      assert held == map[];
      HeldByNone(held, words);
      AttemptOn(t, index, (q.id, 1), q.path1, l, turn.err1, turn.mid, c1);
      FirstTaken(words, w1, c1, c2);
      assert TreeOk(t, index, turn.mid.words) by {
        SameKeys(t, index, words, turn.mid.words);
      }
      AttemptOn(t, index, (q.id, 2), q.path2.value, turn.mid, turn.err2, turn.late, c2);
      Beside(turn.mid.words, w1, c1, w2, c2);
    }
  }

  /** A head that wants one path is served. */
  lemma SingleServed(t: Tree, index: Index, held: Held, words: LockWords, q: Waiter, turn: Turn, qe: Waiter, l': Locks,
                     c: seq<nat>)
    requires q.PathWaiter? && q.path2.None? && !q.done && !q.first_locked && Attached(t, q.path1.nodeid, c + [ROOT])
    requires TreeOk(t, index, words) && WordsOk(held, words) && held == map[]
    requires Woken(t, index, q, true, Locks(held, words), turn, qe, l') && Supplied(turn)
    ensures Served(qe)
  {
    hide TreeOk, WordsOk, Attempt, Attached, Freed;
    HeldByNone(held, words);
    InTree(t, index, words, q.path1, c);
    AttemptOn(t, index, (q.id, 1), q.path1, Locks(held, words), turn.err1, turn.mid, c);
  }

  // ---------- a deadlock ----------

  // Two waiters that block each other for ever. Below a directory a are the directories b and c. The
  // head wants a name in b and one in c, which are apart, and has locked the first. The one behind it
  // wants to write a, and its mark there, which only counts the head, keeps the head from its second
  // path.

  datatype StuckNames = StuckNames(a: string, b: string, c: string, x: string, y: string)

  function StuckTree(s: StuckNames): Tree {
    map[ROOT := Link(None, Some("/")), 2 := Link(Some(ROOT), Some(s.a)), 3 := Link(Some(2), Some(s.b)),
        4 := Link(Some(2), Some(s.c))]
  }

  function StuckIndex(s: StuckNames): Index {
    map[(ROOT, s.a) := 2, (2, s.b) := 3, (2, s.c) := 4]
  }

  function StuckHead(s: StuckNames): Waiter {
    PathWaiter(7, Request(3, Some(s.x), true), Some(Request(4, Some(s.y), true)), true, false, None, None, false, Ok)
  }

  function StuckWriter(s: StuckNames): Waiter {
    Waiting(8, Request(ROOT, Some(s.a), true), None)
  }

  function StuckHold(s: StuckNames): Hold {
    Hold(3, Some(s.x), PathText(StuckTree(s), [3, 2], Some(s.x)), None, [3, 2], false)
  }

  function StuckLocks(s: StuckNames): Locks {
    Locks(map[(7, 1) := StuckHold(s)], map[ROOT := 0, 2 := TREELOCK_WAIT_OFFSET + 1, 3 := 1, 4 := 0])
  }

  lemma StuckClimbs(s: StuckNames)
    ensures var t := StuckTree(s);
      Attached(t, ROOT, [] + [ROOT]) && Attached(t, 2, [2] + [ROOT]) && Attached(t, 3, [3, 2] + [ROOT]) &&
        Attached(t, 4, [4, 2] + [ROOT])
  {
    var t := StuckTree(s);
    assert [] + [ROOT] == [ROOT] && Climb(t, ROOT, [ROOT]);
    assert ([2] + [ROOT])[1..] == [ROOT] && Climb(t, 2, [2] + [ROOT]);
    assert ([3, 2] + [ROOT])[1..] == [2] + [ROOT] && ([4, 2] + [ROOT])[1..] == [2] + [ROOT];
  }

  lemma StuckNamed(s: StuckNames)
    requires s.b != s.c
    ensures Named(StuckTree(s), StuckIndex(s))
  {
    StuckClimbs(s);
    hide Climb;
    var t := StuckTree(s);
    forall n | n in t ensures exists c :: Climb(t, n, c) {
      assert n == ROOT || n == 2 || n == 3 || n == 4;
    }
  }

  lemma StuckHolds(s: StuckNames)
    ensures var l := StuckLocks(s);
      WordsOk(l.held, l.words) && HoldsOk(l.held, StuckTree(s)) && Anchored(l.held, StuckTree(s))
  {
    StuckClimbs(s);
    hide Climb, StuckTree, PathText;
    var held, words := StuckLocks(s).held, StuckLocks(s).words;
    forall n | n in words ensures WordOk(held, words[n], n) {
      assert Readers(held, n) == if n == 2 || n == 3 then {(7, 1)} else {};
      assert forall k :: !Writes(held, k, n);
    }
  }

  lemma StuckQueue(s: StuckNames)
    ensures QueueOk([StuckHead(s), StuckWriter(s)], StuckLocks(s).held, StuckTree(s))
  {
    var held := StuckLocks(s).held;
    assert (7, 1) in held && held[(7, 1)] == StuckHold(s);
    assert (7, 2) !in held && (8, 1) !in held && (8, 2) !in held;
  }

  /** The head's second attempt fails, and leaves everything as it was. */
  lemma StuckSecond(s: StuckNames, err: Status, l': Locks)
    requires s.b != s.c && err != NoMemory
    requires Attempt(StuckTree(s), StuckIndex(s), (7, 2), Request(4, Some(s.y), true), StuckLocks(s), err, l')
    ensures err == Again && l' == StuckLocks(s)
  {
    var t, index, l, r := StuckTree(s), StuckIndex(s), StuckLocks(s), Request(4, Some(s.y), true);
    StuckNamed(s);
    StuckClimbs(s);
    hide Attempt, Named, Attached, StuckHold;
    AttemptOn(t, index, (7, 2), r, l, err, l', [4, 2]);
    assert 2 in [4, 2] && l.words[2] < 0;
    NoLocks(t, index, (7, 2), r, l, err, l');
  }

  lemma StuckHeadTurn(s: StuckNames, turn: Turn, qe: Waiter, l': Locks)
    requires s.b != s.c && Woken(StuckTree(s), StuckIndex(s), StuckHead(s), true, StuckLocks(s), turn, qe, l')
    requires Supplied(turn)
    ensures qe == StuckHead(s) && l' == StuckLocks(s)
  {
    hide Attempt, Freed, StuckTree, StuckIndex, StuckLocks;
    StuckSecond(s, turn.err2, turn.late);
  }

  lemma NoLocks(t: Tree, index: Index, k: Token, r: Request, l: Locks, err: Status, l': Locks)
    requires Attempt(t, index, k, r, l, err, l') && err != Ok
    ensures l' == Locks(l.held, Marked(l.words, TargetOf(index, r), err))
  {
  }

  /** The writer behind it finds its mark, and does not set it again. */
  lemma StuckWriterTurn(s: StuckNames, turn: Turn, qe: Waiter, l': Locks)
    requires s.b != s.c && Woken(StuckTree(s), StuckIndex(s), StuckWriter(s), false, StuckLocks(s), turn, qe, l')
    requires Supplied(turn)
    ensures qe == StuckWriter(s) && l' == StuckLocks(s)
  {
    var t, index, l, r := StuckTree(s), StuckIndex(s), StuckLocks(s), Request(ROOT, Some(s.a), true);
    StuckNamed(s);
    StuckClimbs(s);
    hide Attempt, Named, Climb, StuckHold, Freed;
    assert TreeOk(t, index, l.words);
    assert TargetOf(index, r) == Some(2);
    AttemptOn(t, index, (8, 1), r, l, turn.err1, turn.mid, []);
    NoLocks(t, index, (8, 1), r, l, turn.err1, turn.mid);
    FreedAt(l, (8, 1));
    FreedAt(l, (8, 2));
  }

  lemma PrunedBoth(q: Waiter, q': Waiter)
    requires !Failed(q) && !Failed(q')
    ensures Pruned([q, q']) == [q, q']
  {
    assert [q, q'][1..] == [q'] && [q'][1..] == [];
    assert Pruned([]) == [] && Pruned([q']) == [q'];
  }

  /** All invariants hold, nobody else holds a lock, and the paths of the head are apart. */
  lemma StuckAllowed(s: StuckNames)
    requires s.b != s.c
    ensures var l := StuckLocks(s);
      && TreeOk(StuckTree(s), StuckIndex(s), l.words) && WordsOk(l.held, l.words)
      && HoldsOk(l.held, StuckTree(s)) && Anchored(l.held, StuckTree(s))
      && QueueOk([StuckHead(s), StuckWriter(s)], l.held, StuckTree(s)) && l.held.Keys == {(StuckHead(s).id, 1)}
    ensures Attached(StuckTree(s), 3, [3, 2] + [ROOT]) && Attached(StuckTree(s), 4, [4, 2] + [ROOT])
    ensures Apart(None, [3, 2], None, [4, 2])
  {
    hide Named, WordsOk, HoldsOk, Anchored, QueueOk, Attached;
    StuckNamed(s);
    StuckClimbs(s);
    StuckHolds(s);
    StuckQueue(s);
  }

  /** Still a pass over the queue with enough memory changes nothing. */
  lemma StuckWaiters(s: StuckNames, pass: Pass, lockq': seq<Waiter>, l': Locks)
    requires s.b != s.c
    requires Passed(StuckTree(s), StuckIndex(s), [StuckHead(s), StuckWriter(s)], StuckLocks(s), pass, lockq', l')
    requires forall turn | turn in pass.turns :: Supplied(turn)
    ensures lockq' == [StuckHead(s), StuckWriter(s)] && l' == StuckLocks(s)
  {
    hide Woken, StuckTree, StuckIndex, StuckLocks;
    assert pass.turns[0] in pass.turns && pass.turns[1] in pass.turns;
    StuckHeadTurn(s, pass.turns[0], pass.tried[0], pass.locks[1]);
    StuckWriterTurn(s, pass.turns[1], pass.tried[1], pass.locks[2]);
    assert pass.tried == [StuckHead(s), StuckWriter(s)];
    PrunedBoth(StuckHead(s), StuckWriter(s));
  }
}
