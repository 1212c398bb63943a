/** The worker threads of the multi-threaded session loop (lib/fuse_loop_mt.c), before shutdown. The
    steps are the sections that hold the lock of `struct fuse_mt`. */
module WorkerLoop {
  import opened Lists

  /** A thread waits for a request, or carries one out. */
  datatype State = Receiving | Working(forget: bool)

  type States = map<nat, State>

  /** The threads that `numavail` does not count: a FORGET keeps its thread available. */
  function Busy(states: States): set<nat> {
    set w | w in states && states[w] == Working(false)
  }

  function Waiting(states: States): set<nat> {
    set w | w in states && states[w] == Receiving
  }

  function Forgetting(states: States): set<nat> {
    set w | w in states && states[w] == Working(true)
  }

  ghost predicate Listed(list: seq<nat>, states: States) {
    Distinct(list) && forall w :: w in list <==> w in states
  }

  lemma {:induction false} ListSize(list: seq<nat>, ws: set<nat>)
    requires Distinct(list) && forall w :: w in list <==> w in ws
    ensures |list| == |ws|
  {
    if list == [] {
      assert ws == {};
    } else {
      assert forall i | 0 < i < |list| :: list[i] != list[0] && list[1..][i - 1] == list[i];
      ListSize(list[1..], ws - {list[0]});
    }
  }

  lemma SplitSize(states: States)
    ensures |states| == |Busy(states)| + |Waiting(states)| + |Forgetting(states)|
  {
    assert states.Keys == Busy(states) + Waiting(states) + Forgetting(states);
  }

  lemma BusyPut(states: States, w: nat, state: State)
    ensures Busy(states[w := state]) == if state == Working(false) then Busy(states) + {w} else Busy(states) - {w}
  {
  }

  lemma BusyDrop(states: States, w: nat)
    ensures Busy(states - {w}) == Busy(states) - {w}
    ensures w in Busy(states) <==> w in states && states[w] == Working(false)
  {
  }

  lemma BusyChange(states: States, w: nat, state: State)
    ensures |Busy(states[w := state])| ==
            |Busy(states)| - (if w in states && states[w] == Working(false) then 1 else 0)
            + if state == Working(false) then 1 else 0
    ensures w in states ==> |Busy(states - {w})| == |Busy(states)| - if states[w] == Working(false) then 1 else 0
  {
    BusyPut(states, w, state);
    BusyDrop(states, w);
    hide Busy;
    var others := Busy(states) - {w};
    assert Busy(states) == if w in Busy(states) then others + {w} else others;
    assert Busy(states[w := state]) == if state == Working(false) then others + {w} else others;
  }

  lemma InList(list: seq<nat>, states: States, w: nat, state: State)
    requires Listed(list, states) && w in states
    ensures Listed(list, states[w := state]) && Listed(Without(list, w), states - {w})
    ensures |Without(list, w)| == |list| - 1
  {
    WithoutKeeps(list, w);
  }

  class FuseMt {
    const maxIdle: int
    var numworker: int
    var numavail: int
    var list: seq<nat>        // from main.next on
    var states: States
    ghost var lacking: bool   // some thread could not be created

    ghost predicate Valid()
      reads this
    {
      Counted() && (!lacking && maxIdle >= 1 ==> 1 <= numavail <= maxIdle)
    }

    /** The two counters */
    ghost predicate Counted()
      reads this
    {
      Listed(list, states) && numworker == |list| && numavail == |list| - |Busy(states)|
    }

    /** `fuse_loop_start_thread`; `w` is the new thread, if it can be created. */
    method StartThread(w: nat, created: bool)
      requires Counted() && w !in states
      modifies this`list, this`states, this`numavail, this`numworker, this`lacking
      ensures Counted() && lacking == (old(lacking) || !created)
      ensures numavail == old(numavail) + (if created then 1 else 0) &&
        list == if created then old(list) + [w] else old(list)
      ensures states == if created then old(states)[w := Receiving] else old(states)
    {
      if !created {
        lacking := true;
        return;
      }
      BusyChange(states, w, Receiving);
      assert forall v :: v in list + [w] <==> v in list || v == w;
      list := list + [w];
      states := states[w := Receiving];
      numavail := numavail + 1;
      numworker := numworker + 1;
    }

    /** The start of `fuse_session_loop_mt_32`: one thread */
    constructor (maxIdle: int, w: nat, created: bool)
      ensures Valid() && lacking == !created && this.maxIdle == maxIdle && list == if created then [w] else []
    {
      this.maxIdle := maxIdle;
      numworker, numavail, list, states, lacking := 0, 0, [], map[], false;
      new;
      assert Busy(states) == {};
      StartThread(w, created);
    }

    /** A thread has received a request; if that was the last available one, another, `v`, is started. */
    method Take(w: nat, forget: bool, v: nat, created: bool)
      requires Valid() && w in states && states[w] == Receiving && v !in states
      modifies this`list, this`states, this`numavail, this`numworker, this`lacking
      ensures Valid()
      ensures var last := old(numavail) - (if forget then 0 else 1) == 0;
        && states == (if last && created then old(states)[w := Working(forget)][v := Receiving]
                      else old(states)[w := Working(forget)])
        && list == (if last && created then old(list) + [v] else old(list))
        && lacking == (old(lacking) || (last && !created))
    {
      hide Listed;
      InList(list, states, w, Working(forget));
      BusyChange(states, w, Working(forget));
      states := states[w := Working(forget)];
      if !forget {
        numavail := numavail - 1;
      }
      if numavail == 0 {
        StartThread(v, created);
      }
    }

    /** A thread is done with its request: it goes on, or ends if too many are available. */
    method Finish(w: nat)
      requires Valid() && w in states && states[w].Working?
      modifies this`list, this`states, this`numavail, this`numworker
      ensures Valid()
      ensures var more := old(numavail) + if old(states)[w].forget then 0 else 1;
        if more > maxIdle then states == old(states) - {w} && list == Without(old(list), w)
        else states == old(states)[w := Receiving] && list == old(list)
    {
      hide Listed;
      InList(list, states, w, Receiving);
      BusyChange(states, w, Receiving);
      if !states[w].forget {
        numavail := numavail + 1;
      }
      if numavail > maxIdle {
        list := Without(list, w);
        numavail := numavail - 1;
        numworker := numworker - 1;
        states := states - {w};
        return;
      }
      states := states[w := Receiving];
    }
  }

  /** What the counters say about the threads: `numavail` is the number of those that wait for a
      request or carry out a FORGET. So some thread receives unless FORGETs hold all available ones. */
  lemma Available(list: seq<nat>, states: States, numworker: int, numavail: int)
    requires Listed(list, states) && numworker == |list| && numavail == |list| - |Busy(states)|
    ensures numworker == |states| && numavail == |Waiting(states)| + |Forgetting(states)|
    ensures Waiting(states) == {} <==> numavail == |Forgetting(states)|
  {
    ListSize(list, states.Keys);
    SplitSize(states);
  }
}
