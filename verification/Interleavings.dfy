/** The path locks of lib/fuse.c over whole runs: the threads take turns under the mutex, and each turn
    is one call of `PathLocks.Mount`. What a request has locked stays as it was, whatever the others
    do in between; and two waiters that block each other stay blocked. */
module Interleavings {
  import opened Wrappers
  import opened NodeTree
  import opened PathLocks

  datatype State = State(t: Tree, index: Index, l: Locks, lockq: seq<Waiter>)

  /** One section under the mutex */
  datatype Call =
    | Get(id: nat, r: Request)
    | GetBoth(id: nat, r1: Request, r2: Request)
    | Give(id: nat, nodeid: nat, wnode: Option<nat>)
    | GiveBoth(id: nat, nodeid1: nat, nodeid2: nat, wnode1: Option<nat>, wnode2: Option<nat>)
    | Leave(i: nat)
    | Forget(id: nat, nodeid: nat, last: bool)
    | Remove(id: nat, dir: nat, name: string)
    | Rename(id: nat, olddir: nat, oldname: string, newdir: nat, newname: string)
    | Create(n: nat, dir: nat, name: string)
    | Delete(n: nat)

  /** How its attempts and its pass over the queue went */
  datatype Outcome = Outcome(turn: Turn, pass: Pass)

  // ---------- what a call does ----------

  /** What `Valid` and `Queued` say of a mount, and no element in the queue has failed. */
  ghost predicate Sound(s: State) {
    TreeOk(s.t, s.index, s.l.words) && WordsOk(s.l.held, s.l.words) && HoldsOk(s.l.held, s.t) &&
    Anchored(s.l.held, s.t) && QueueOk(s.lockq, s.l.held, s.t) && forall q | q in s.lockq :: !Failed(q)
  }

  ghost predicate Fresh(s: State, id: nat) {
    (id, 1) !in s.l.held && (id, 2) !in s.l.held && Absent(s.lockq, id)
  }

  ghost predicate Holding(s: State, k: Token, nodeid: nat, wnode: Option<nat>) {
    k in s.l.held && s.l.held[k].nodeid == nodeid && s.l.held[k].wnode == wnode && Absent(s.lockq, k.0)
  }

  /** When the thread can make the call: a new request, one that runs with its locks, or a waiter that is
      done. */
  ghost predicate Enabled(call: Call, s: State) {
    |s.l.held| + 2 * |s.lockq| + 2 < INT_MAX &&
    match call
    case Get(id, r) => Servable(s.t, r) && Fresh(s, id)
    case GetBoth(id, r1, r2) => Servable(s.t, r1) && Servable(s.t, r2) && Fresh(s, id)
    case Give(id, nodeid, wnode) => Holding(s, (id, 1), nodeid, wnode)
    case GiveBoth(id, nodeid1, nodeid2, wnode1, wnode2) =>
      Holding(s, (id, 1), nodeid1, wnode1) && Holding(s, (id, 2), nodeid2, wnode2)
    case Leave(i) => i < |s.lockq| && (s.lockq[i].PathWaiter? ==> s.lockq[i].done)
    case Forget(id, nodeid, last) => nodeid in s.t && nodeid in s.l.words && Fresh(s, id)
    case Remove(id, dir, name) => LockedName(s.l, s.index, (id, 1), dir, name) && Absent(s.lockq, id)
    case Rename(id, olddir, oldname, newdir, newname) =>
      LockedName(s.l, s.index, (id, 1), olddir, oldname) && LockedName(s.l, s.index, (id, 2), newdir, newname) &&
      Absent(s.lockq, id)
    case Create(n, dir, name) => n !in s.t && n != ROOT && dir in s.t && (dir, name) !in s.index
    case Delete(n) =>
      n in s.t && n != ROOT && s.t[n].parent == None && n in s.l.words && s.l.words[n] == 0 &&
      (forall m | m in s.t :: s.t[m].parent != Some(n)) && forall q | q in s.lockq :: !Names(q, n)
  }

  function Node(index: Index, dir: nat, name: string): Option<nat> {
    if (dir, name) in index then Some(index[(dir, name)]) else None
  }

  ghost predicate DoesGet(id: nat, r: Request, err: Status, s: State, s': State) {
    Attempt(s.t, s.index, (id, 1), r, s.l, err, s'.l) &&
    s' == s.(l := s'.l, lockq := if err == Again then s.lockq + [Waiting(id, r, None)] else s.lockq)
  }

  ghost predicate DoesGetBoth(id: nat, r1: Request, r2: Request, turn: Turn, s: State, s': State) {
    var err := if turn.err1 == Ok then turn.err2 else turn.err1;
    var target := TargetOf(s.index, if turn.err1 == Ok then r2 else r1);
    Attempt(s.t, s.index, (id, 1), r1, s.l, turn.err1, turn.mid) &&
    (turn.err1 == Ok ==> Attempt(s.t, s.index, (id, 2), r2, turn.mid, turn.err2, turn.late)) &&
    s' == s.(l := if err == Ok then turn.late else Locks(s.l.held, Marked(s.l.words, target, err)),
             lockq := if err == Again then s.lockq + [Waiting(id, r1, Some(r2))] else s.lockq)
  }

  ghost predicate DoesGive(given: Locks, pass: Pass, s: State, s': State) {
    Passed(s.t, s.index, s.lockq, given, pass, s'.lockq, s'.l) && Undisturbed(s.lockq, given.held, s'.l.held) &&
    s'.t == s.t && s'.index == s.index
  }

  ghost predicate DoesRemove(id: nat, dir: nat, name: string, s: State, s': State) {
    var n := Node(s.index, dir, name);
    SameOthers(s.l.held, s'.l.held, id) &&
    s' == if n.None? then s
          else s.(t := Unlinked(s.t, n.value), index := s.index - {(dir, name)},
                  l := Locks(AfterMove(s.l.held, n.value), s.l.words))
  }

  ghost predicate DoesRename(id: nat, old_: (nat, string), new_: (nat, string), s: State, s': State) {
    var n, m := Node(s.index, old_.0, old_.1), Node(s.index, new_.0, new_.1);
    SameOthers(s.l.held, s'.l.held, id) && SameHolds(s.l.held, s'.l.held) &&
    s' == if n.None? then s
          else State(Renamed(s.t, n, m, new_.0, new_.1), (s.index - {new_, old_})[new_ := n.value],
                     Locks(AfterMove(if m.Some? then AfterMove(s.l.held, m.value) else s.l.held, n.value), s.l.words),
                     s.lockq)
  }

  ghost predicate Does(call: Call, out: Outcome, s: State, s': State) {
    Enabled(call, s) &&
    match call
    case Get(id, r) => DoesGet(id, r, out.turn.err1, s, s')
    case GetBoth(id, r1, r2) => DoesGetBoth(id, r1, r2, out.turn, s, s')
    case Give(id, nodeid, wnode) => DoesGive(Freed(s.l, (id, 1)), out.pass, s, s')
    case GiveBoth(id, _, _, _, _) => DoesGive(Freed(Freed(s.l, (id, 1)), (id, 2)), out.pass, s, s')
    case Leave(i) => s' == s.(lockq := s.lockq[..i] + s.lockq[i + 1..])
    case Forget(id, nodeid, last) =>
      s' == if last && s.l.words[nodeid] != 0 then s.(lockq := s.lockq + [ForgetWaiter(id, nodeid)]) else s
    case Remove(id, dir, name) => DoesRemove(id, dir, name, s, s')
    case Rename(id, olddir, oldname, newdir, newname) => DoesRename(id, (olddir, oldname), (newdir, newname), s, s')
    case Create(n, dir, name) =>
      s' == s.(t := Moved(s.t, n, dir, name), index := s.index[(dir, name) := n],
               l := Locks(s.l.held, s.l.words[n := 0]))
    case Delete(n) => s' == s.(t := s.t - {n}, l := Locks(s.l.held, s.l.words - {n}))
  }

  ghost function StateOf(m: Mount): State
    reads m
  {
    State(m.tree, m.index, m.Now(), m.lockq)
  }

  /** Every call of a mount is such a step, and leaves a sound state. */
  method Perform(m: Mount, call: Call, memory: bool) returns (ghost out: Outcome)
    requires Sound(StateOf(m)) && Enabled(call, StateOf(m))
    modifies m
    ensures Sound(StateOf(m)) && Does(call, out, old(StateOf(m)), StateOf(m))
    ensures memory ==> forall turn | turn in out.pass.turns :: Supplied(turn)
    ensures memory ==> call.Get? || call.GetBoth? ==> Supplied(out.turn)
  {
    hide TreeOk, WordsOk, HoldsOk, Anchored, QueueOk, Attempt, Passed, Undisturbed, SameOthers, SameHolds;
    ghost var s, turn := StateOf(m), Turn(Ok, m.Now(), Ok, m.Now());
    out := Outcome(turn, Pass([], [], []));
    match call {
      case Get(id, r) =>
        var err, _, _ := m.GetPath(id, r, memory);
        out := Outcome(Turn(err, m.Now(), Ok, m.Now()), out.pass);
      case GetBoth(id, r1, r2) =>
        var _, _, _, _, _, turn := m.GetPath2(id, r1, r2, memory);
        out := Outcome(turn, out.pass);
      case Give(id, nodeid, wnode) =>
        var pass := m.FreePath(id, nodeid, wnode, memory);
        out := Outcome(turn, pass);
      case GiveBoth(id, nodeid1, nodeid2, wnode1, wnode2) =>
        var pass := m.FreePath2(id, nodeid1, nodeid2, wnode1, wnode2, memory);
        assert s.l.held - {(id, 1)} - {(id, 2)} == s.l.held - {(id, 1), (id, 2)};
        out := Outcome(turn, pass);
      case Leave(i) =>
        m.DequeuePath(i);
      case Forget(id, nodeid, last) =>
        var _ := m.AwaitUnlocked(id, nodeid, last, None);
      case Remove(id, dir, name) =>
        m.RemoveNode(id, dir, name);
        assert (dir, name) !in s.index ==> s.index - {(dir, name)} == s.index;
      case Rename(id, olddir, oldname, newdir, newname) =>
        m.RenameNode(id, olddir, oldname, newdir, newname);
      case Create(n, dir, name) =>
        m.NewNode(n, dir, name);
      case Delete(n) =>
        m.DeleteNode(n);
    }
  }

  // ---------- runs ----------

  /** Whose thread makes the call */
  function Actor(call: Call, s: State): Option<nat> {
    match call
    case Get(id, _) => Some(id)
    case GetBoth(id, _, _) => Some(id)
    case Give(id, _, _) => Some(id)
    case GiveBoth(id, _, _, _, _) => Some(id)
    case Leave(i) => if i < |s.lockq| then Some(s.lockq[i].id) else None
    case Forget(id, _, _) => Some(id)
    case Remove(id, _, _) => Some(id)
    case Rename(id, _, _, _, _) => Some(id)
    case Create(_, _, _) => None
    case Delete(_) => None
  }

  ghost predicate Runs(states: seq<State>, calls: seq<Call>, outs: seq<Outcome>) {
    |states| == |calls| + 1 && |outs| == |calls| && (forall i | 0 <= i < |states| :: Sound(states[i])) &&
    forall i | 0 <= i < |calls| :: Does(calls[i], outs[i], states[i], states[i + 1])
  }

  /** The request does nothing in between. */
  ghost predicate NotBy(states: seq<State>, calls: seq<Call>, id: nat) {
    |states| == |calls| + 1 && forall i | 0 <= i < |calls| :: Actor(calls[i], states[i]) != Some(id)
  }

  ghost predicate SameOwn(held: Held, held': Held, id: nat) {
    forall k: Token | k.0 == id :: (k in held <==> k in held') && (k in held ==> held'[k] == held[k])
  }

  // ---------- what a request has locked stays ----------

  lemma PassedAbsent(s: State, given: Locks, pass: Pass, s': State, id: nat)
    requires DoesGive(given, pass, s, s') && Absent(s.lockq, id)
    ensures Absent(s'.lockq, id)
  {
    hide Woken, SameRequest;
    NoWaiterLost(s.t, s.index, s.lockq, given, pass, s'.lockq, s'.l);
    PrunedKeeps(pass.tried);
    forall q | q in s'.lockq ensures q.id != id {
      assert q in pass.tried;
      var i :| 0 <= i < |pass.tried| && pass.tried[i] == q;
      assert SameRequest(s.lockq[i], q);
      SameId(s.lockq[i], q);
      assert s.lockq[i] in s.lockq;
    }
  }

  lemma SameId(q: Waiter, q': Waiter)
    requires SameRequest(q, q')
    ensures q'.id == q.id
  {
  }

  lemma AttemptOwn(t: Tree, index: Index, k: Token, r: Request, l: Locks, err: Status, l': Locks, id: nat)
    requires Attempt(t, index, k, r, l, err, l') && k.0 != id
    ensures SameOwn(l.held, l'.held, id)
  {
  }

  /** A call of another request leaves the locks of this one alone, and does not queue it. */
  lemma OthersKeep(call: Call, out: Outcome, s: State, s': State, id: nat)
    requires Does(call, out, s, s') && Absent(s.lockq, id) && Actor(call, s) != Some(id)
    ensures SameOwn(s.l.held, s'.l.held, id) && Absent(s'.lockq, id)
  {
    hide Attempt, Enabled, Passed, Marked, Undisturbed;
    match call
    case Get(id', r) => AttemptOwn(s.t, s.index, (id', 1), r, s.l, out.turn.err1, s'.l, id);
    case GetBoth(id', r1, r2) =>
      AttemptOwn(s.t, s.index, (id', 1), r1, s.l, out.turn.err1, out.turn.mid, id);
      if out.turn.err1 == Ok {
        AttemptOwn(s.t, s.index, (id', 2), r2, out.turn.mid, out.turn.err2, out.turn.late, id);
      }
    case Give(id', _, _) =>
      FreedAt(s.l, (id', 1));
      GiveOwn(s, Freed(s.l, (id', 1)), out.pass, s', id);
    case GiveBoth(id', _, _, _, _) =>
      FreedBoth(s.l, id');
      GiveOwn(s, Freed(Freed(s.l, (id', 1)), (id', 2)), out.pass, s', id);
    case Leave(i) =>
    case Forget(_, _, _) =>
    case Remove(_, _, _) =>
    case Rename(_, _, _, _, _) =>
    case Create(_, _, _) =>
    case Delete(_) =>
  }

  lemma GiveOwn(s: State, given: Locks, pass: Pass, s': State, id: nat)
    requires DoesGive(given, pass, s, s') && Absent(s.lockq, id) && SameOwn(s.l.held, given.held, id)
    ensures SameOwn(s.l.held, s'.l.held, id) && Absent(s'.lockq, id)
  {
    PassedAbsent(s, given, pass, s', id);
  }

  /** The same for any number of calls. */
  lemma {:induction false} OthersKeepRun(states: seq<State>, calls: seq<Call>, outs: seq<Outcome>, id: nat)
    requires Runs(states, calls, outs) && NotBy(states, calls, id) && Absent(states[0].lockq, id)
    ensures SameOwn(states[0].l.held, states[|calls|].l.held, id) && Absent(states[|calls|].lockq, id)
    decreases |calls|
  {
    hide Does, Sound;
    if calls != [] {
      var n := |calls| - 1;
      RunsLess(states, calls, outs, id);
      OthersKeepRun(states[..n + 1], calls[..n], outs[..n], id);
      OthersKeep(calls[n], outs[n], states[n], states[n + 1], id);
      hide SameOwn, Absent;
      SameOwnTwice(states[0].l.held, states[n].l.held, states[n + 1].l.held, id);
    }
  }

  /** A run without its last call */
  lemma RunsLess(states: seq<State>, calls: seq<Call>, outs: seq<Outcome>, id: nat)
    requires Runs(states, calls, outs) && calls != []
    ensures var n := |calls| - 1;
      && Runs(states[..n + 1], calls[..n], outs[..n])
      && (NotBy(states, calls, id) ==> NotBy(states[..n + 1], calls[..n], id) && Actor(calls[n], states[n]) != Some(id))
      && states[..n + 1][n] == states[n] && states[..n + 1][0] == states[0]
      && Does(calls[n], outs[n], states[n], states[n + 1]) && Sound(states[n]) && Sound(states[n + 1])
  {
    hide Does, Sound, Actor;
  }

  lemma SameOwnTwice(a: Held, b: Held, c: Held, id: nat)
    requires SameOwn(a, b, id) && SameOwn(b, c, id)
    ensures SameOwn(a, c, id)
  {
  }

  // ---------- a rename, with others in between ----------

  /** A name that had no node when it was locked still has none, or one that nobody has locked. */
  ghost predicate Vacant(s: State, dir: nat, name: string) {
    (dir, name) in s.index ==> s.index[(dir, name)] in s.l.words && s.l.words[s.index[(dir, name)]] == 0
  }

  /** After `get_path2` for a rename, whatever the others do until `rename_node`: the holds are as they
      were, the paths given to the filesystem are still the paths of the two names, and the nodes behind
      them are the locked ones. */
  lemma RenameFindsItsNodes(s0: State, out: Outcome, id: nat, olddir: nat, oldname: string, newdir: nat,
                            newname: string, states: seq<State>, calls: seq<Call>, outs: seq<Outcome>)
    requires Sound(s0) && Runs(states, calls, outs) && NotBy(states, calls, id)
    requires var r1, r2 := Request(olddir, Some(oldname), true), Request(newdir, Some(newname), true);
      Does(GetBoth(id, r1, r2), out, s0, states[0]) && out.turn.err1 == Ok && out.turn.err2 == Ok
    requires var s := states[|calls|];
      && (Node(s0.index, olddir, oldname).None? ==> Vacant(s, olddir, oldname))
      && (Node(s0.index, newdir, newname).None? ==> Vacant(s, newdir, newname))
    ensures var s := states[|calls|];
      && SameOwn(states[0].l.held, s.l.held, id) && Absent(s.lockq, id)
      && LockedName(s.l, s.index, (id, 1), olddir, oldname) && LockedName(s.l, s.index, (id, 2), newdir, newname)
      && (forall j: Half :: StillThere(s.t, s.l.held[(id, j)]))
      && (Node(s0.index, olddir, oldname).Some? ==> Node(s.index, olddir, oldname) == Node(s0.index, olddir, oldname))
      && (Node(s0.index, newdir, newname).Some? ==> Node(s.index, newdir, newname) == Node(s0.index, newdir, newname))
  {
    hide Does, Sound, LockedName, SameOwn, Got, StillThere, Node, Vacant, NotBy, Absent;
    var r1, r2 := Request(olddir, Some(oldname), true), Request(newdir, Some(newname), true);
    var s1, s := states[0], states[|calls|];
    GotBoth(s0, out, id, r1, r2, s1);
    OthersKeepRun(states, calls, outs, id);
    KeepsName(s0, s1, s, id, 1, r1, olddir, oldname);
    KeepsName(s0, s1, s, id, 2, r2, newdir, newname);
  }

  /** What `get_path2` leaves when it succeeds */
  lemma GotBoth(s0: State, out: Outcome, id: nat, r1: Request, r2: Request, s1: State)
    requires Does(GetBoth(id, r1, r2), out, s0, s1) && out.turn.err1 == Ok && out.turn.err2 == Ok
    ensures Got(s0, s1, id, 1, r1) && Got(s0, s1, id, 2, r2) && Absent(s1.lockq, id) && s1.index == s0.index
  {
    hide Open, StillThere, Raised, WithWord, Marked;
  }

  ghost predicate Got(s0: State, s1: State, id: nat, j: Half, r: Request) {
    (id, j) in s1.l.held &&
    var h := s1.l.held[(id, j)];
    h.nodeid == r.nodeid && h.name == r.name && h.wnode == TargetOf(s0.index, r) && !h.moved
  }

  lemma KeepsName(s0: State, s1: State, s: State, id: nat, j: Half, r: Request, dir: nat, name: string)
    requires r == Request(dir, Some(name), true) && Got(s0, s1, id, j, r) && Sound(s)
    requires SameOwn(s1.l.held, s.l.held, id) && (Node(s0.index, dir, name).None? ==> Vacant(s, dir, name))
    ensures (id, j) in s.l.held && LockedName(s.l, s.index, (id, j), dir, name) && StillThere(s.t, s.l.held[(id, j)])
    ensures Node(s0.index, dir, name).Some? ==> Node(s.index, dir, name) == Node(s0.index, dir, name)
  {
    assert (id, j).0 == id;
    hide WordsOk, QueueOk, StillThere;
    var h := s.l.held[(id, j)];
    if h.wnode.Some? {
      AnchoredName(s.l.held, s.t, s.index, (id, j), dir, name);
    }
  }

  lemma AnchoredName(held: Held, t: Tree, index: Index, k: Token, dir: nat, name: string)
    requires Anchored(held, t) && Named(t, index) && k in held && held[k].wnode.Some? && !held[k].moved
    requires held[k].nodeid == dir && held[k].name == Some(name)
    ensures Node(index, dir, name) == held[k].wnode
  {
  }

  /** And whatever they do from then until `free_path2`, the two paths can be given back as they were
      got: the same directories, nodes and words to lower. */
  lemma RenameGivesBack(s0: State, out: Outcome, id: nat, olddir: nat, oldname: string, newdir: nat, newname: string,
                        s1: State, s2: State, out2: Outcome, states: seq<State>, calls: seq<Call>, outs: seq<Outcome>)
    requires var r1, r2 := Request(olddir, Some(oldname), true), Request(newdir, Some(newname), true);
      Does(GetBoth(id, r1, r2), out, s0, s1) && out.turn.err1 == Ok && out.turn.err2 == Ok
    requires SameOwn(s1.l.held, s2.l.held, id)
    requires Runs(states, calls, outs) && NotBy(states, calls, id)
    requires Does(Call.Rename(id, olddir, oldname, newdir, newname), out2, s2, states[0])
    ensures var s := states[|calls|];
      && Holding(s, (id, 1), olddir, Node(s0.index, olddir, oldname))
      && Holding(s, (id, 2), newdir, Node(s0.index, newdir, newname))
      && s.l.held[(id, 1)].nodes == s1.l.held[(id, 1)].nodes && s.l.held[(id, 2)].nodes == s1.l.held[(id, 2)].nodes
  {
    hide Does, Sound, SameOwn, Got, Node, Holding, NotBy, Absent, SameHolds;
    GotBoth(s0, out, id, Request(olddir, Some(oldname), true), Request(newdir, Some(newname), true), s1);
    RenameKeeps(s2, out2, id, olddir, oldname, newdir, newname, states[0]);
    OthersKeepRun(states, calls, outs, id);
    StillHolding(s0, s1, s2, states[0], states[|calls|], id, 1, olddir, oldname);
    StillHolding(s0, s1, s2, states[0], states[|calls|], id, 2, newdir, newname);
  }

  lemma RenameKeeps(s: State, out: Outcome, id: nat, olddir: nat, oldname: string, newdir: nat, newname: string,
                    s': State)
    requires Does(Call.Rename(id, olddir, oldname, newdir, newname), out, s, s')
    ensures SameHolds(s.l.held, s'.l.held) && Absent(s'.lockq, id)
  {
    hide SameHolds, SameOthers, AfterMove, Renamed;
  }

  lemma StillHolding(s0: State, s1: State, s2: State, s3: State, s: State, id: nat, j: Half, dir: nat, name: string)
    requires Got(s0, s1, id, j, Request(dir, Some(name), true)) && SameOwn(s1.l.held, s2.l.held, id)
    requires SameHolds(s2.l.held, s3.l.held) && SameOwn(s3.l.held, s.l.held, id) && Absent(s.lockq, id)
    ensures Holding(s, (id, j), dir, Node(s0.index, dir, name))
    ensures (id, j) in s1.l.held && s.l.held[(id, j)].nodes == s1.l.held[(id, j)].nodes
  {
    assert (id, j).0 == id;
    assert s3.l.held[(id, j)].(moved := false) == s2.l.held[(id, j)].(moved := false);
  }
}
