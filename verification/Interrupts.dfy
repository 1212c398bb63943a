/** Requests and their interruption (lib/fuse_lowlevel.c) as a machine whose steps are the sections
    under the session lock. A request lives while it is listed or an interrupt handler holds it. */
module Interrupts {
  import opened Lists
  import opened Wrappers

  /** Who holds `req->lock` */
  datatype Holder = Handling(intr: nat) | Registrar

  /** An ordinary request; `func` is the interrupt callback. */
  datatype Req = Req(unique: nat, ctr: int, interrupted: bool, func: Option<nat>, lock: Option<Holder>)

  /** Where `find_interrupted` is with the request that it has found: the reference taken, the
      request marked and its callback read, or the callback done. */
  datatype Handler = Found(req: nat) | Marked(req: nat, func: Option<nat>) | Called(req: nat)

  /** What becomes of an interrupt: it is being handled, has marked its request, waits for it, was
      dropped as a duplicate, or is answered EAGAIN. */
  datatype Fate = Handled(req: nat) | Done(req: nat) | Pending | Duplicate | Again

  type Reqs = map<nat, Req>
  type Handlers = map<nat, Handler>
  type Registering = map<nat, Option<nat>>

  /** Which callbacks of which requests have run */
  type Ran = set<(nat, nat)>

  // ---------- the invariant ----------

  function Users(handlers: Handlers, r: nat): set<nat> {
    set h | h in handlers && handlers[h].req == r
  }

  /** A request counts its place in the list and its handlers, and is freed when both are gone. */
  ghost predicate Counted(reqs: Reqs, list: seq<nat>, handlers: Handlers) {
    Distinct(list) && (forall r | r in list :: r in reqs) && (forall h | h in handlers :: handlers[h].req in reqs) &&
    forall r | r in reqs :: reqs[r].ctr == (if r in list then 1 else 0) + |Users(handlers, r)| && reqs[r].ctr > 0
  }

  /** The lock of a request is held from marking it to the end of its callback, and while a
      callback is registered. What a handler is about to call is what is registered. */
  ghost predicate Locked(reqs: Reqs, list: seq<nat>, handlers: Handlers, registering: Registering) {
    (forall h | h in handlers && handlers[h].Marked? && handlers[h].req in reqs ::
        reqs[handlers[h].req].lock == Some(Handling(h))) &&
    (forall r | r in reqs && reqs[r].lock.Some? && reqs[r].lock.value.Handling? ::
       var h := reqs[r].lock.value.intr; h in handlers && handlers[h].Marked? && handlers[h].req == r) &&
    (forall r | r in reqs :: r in registering <==> reqs[r].lock == Some(Registrar)) &&
    (forall r | r in registering :: r in list && r in reqs && reqs[r].func == registering[r]) &&
    forall h | h in handlers && handlers[h].Marked? && handlers[h].req in list && handlers[h].req in reqs ::
      reqs[handlers[h].req].func == handlers[h].func
  }

  /** No pending interrupt is for a listed request, and there is at most one for each id. */
  ghost predicate Waiting(reqs: Reqs, list: seq<nat>, intrs: map<nat, nat>, interrupts: seq<nat>) {
    Distinct(interrupts) && (forall i | i in interrupts :: i in intrs) &&
    (forall i, j | 0 <= i < j < |interrupts| && interrupts[i] in intrs && interrupts[j] in intrs ::
       intrs[interrupts[i]] != intrs[interrupts[j]]) &&
    forall i, r | i in interrupts && i in intrs && r in list && r in reqs :: intrs[i] != reqs[r].unique
  }

  /** The callback of an interrupted request has run, or is about to. */
  ghost predicate Invoked(reqs: Reqs, list: seq<nat>, handlers: Handlers, registering: Registering, calls: Ran) {
    forall r | r in list && r in reqs && reqs[r].interrupted && reqs[r].func.Some? ::
      (r, reqs[r].func.value) in calls || r in registering ||
      exists h :: h in handlers && handlers[h] == Marked(r, reqs[r].func)
  }

  /** Every interrupt has a fate, and the live ones are where their fates say. */
  ghost predicate Fated(intrs: map<nat, nat>, interrupts: seq<nat>, handlers: Handlers, answering: set<nat>,
                        fates: map<nat, Fate>, flagged: set<nat>) {
    (forall i | i in intrs :: i in fates) &&
    (forall i | i in fates :: match fates[i]
       case Pending => i in intrs && i in interrupts && i !in handlers && i !in answering
       case Handled(r) => i in intrs && i !in interrupts && i in handlers && i !in answering && handlers[i].req == r &&
                          (!handlers[i].Found? ==> r in flagged)
       case Done(r) => i !in intrs && i !in handlers && r in flagged
       case Duplicate => i !in intrs && i !in handlers
       case Again => (i in intrs <==> i in answering) && i !in interrupts && i !in handlers) &&
    (forall i | i in interrupts || i in handlers || i in answering :: i in intrs)
  }

  /** Every address was allocated once and is destroyed at most once. */
  ghost predicate Owned(reqs: Reqs, intrs: map<nat, nat>, destroyed: set<nat>, made: nat, fates: map<nat, Fate>,
                        flagged: set<nat>) {
    (forall a: nat :: a < made <==> a in reqs || a in intrs || a in destroyed) &&
    (forall a | a in reqs ::
        a !in intrs && a !in destroyed && a !in fates && (reqs[a].interrupted <==> a in flagged)) &&
    (forall a | a in intrs :: a !in destroyed) && (forall a | a in fates || a in flagged :: a < made)
  }

  // ---------- counting handlers ----------

  lemma UsersNew(handlers: Handlers, h: nat, handler: Handler, r: nat)
    requires h !in handlers
    ensures |Users(handlers[h := handler], r)| == |Users(handlers, r)| + if handler.req == r then 1 else 0
  {
    var u, u' := Users(handlers, r), Users(handlers[h := handler], r);
    assert h !in u && forall g :: g in u' <==> g in u || (g == h && handler.req == r);
    hide Users;
    assert u' == if handler.req == r then u + {h} else u;
  }

  lemma UsersSame(handlers: Handlers, h: nat, handler: Handler, r: nat)
    requires h in handlers && handlers[h].req == handler.req
    ensures Users(handlers[h := handler], r) == Users(handlers, r)
  {
  }

  lemma UsersGone(handlers: Handlers, h: nat, r: nat)
    requires h in handlers
    ensures |Users(handlers - {h}, r)| == |Users(handlers, r)| - if handlers[h].req == r then 1 else 0
  {
    assert Users(handlers - {h}, r) == Users(handlers, r) - {h};
    assert h in Users(handlers, r) <==> handlers[h].req == r;
  }

  // ---------- the steps of Counted ----------

  lemma CountedNew(reqs: Reqs, list: seq<nat>, handlers: Handlers, r: nat, req: Req)
    requires Counted(reqs, list, handlers) && r !in reqs && req.ctr == 1
    ensures Counted(reqs[r := req], list + [r], handlers)
  {
    assert Users(handlers, r) == {};
    assert forall q :: q in list + [r] <==> q in list || q == r;
  }

  lemma CountedFound(reqs: Reqs, list: seq<nat>, handlers: Handlers, h: nat, r: nat)
    requires Counted(reqs, list, handlers) && h !in handlers && r in reqs
    ensures Counted(reqs[r := reqs[r].(ctr := reqs[r].ctr + 1)], list, handlers[h := Found(r)])
  {
    forall q | q in reqs ensures |Users(handlers[h := Found(r)], q)| == |Users(handlers, q)| + if r == q then 1 else 0 {
      UsersNew(handlers, h, Found(r), q);
    }
    hide Users;
  }

  lemma CountedSame(reqs: Reqs, list: seq<nat>, handlers: Handlers, h: nat, handler: Handler, req: Req)
    requires Counted(reqs, list, handlers) && h in handlers && handler.req == handlers[h].req && handler.req in reqs
    requires req.ctr == reqs[handler.req].ctr
    ensures Counted(reqs[handler.req := req], list, handlers[h := handler])
  {
    forall q | q in reqs ensures Users(handlers[h := handler], q) == Users(handlers, q) {
      UsersSame(handlers, h, handler, q);
    }
    hide Users;
  }

  lemma CountedReq(reqs: Reqs, list: seq<nat>, handlers: Handlers, r: nat, req: Req)
    requires Counted(reqs, list, handlers) && r in reqs && req.ctr == reqs[r].ctr
    ensures Counted(reqs[r := req], list, handlers)
  {
  }

  /** Giving up a reference to a request; the last one destroys it. */
  function Dropped(reqs: Reqs, r: nat): Reqs {
    if r !in reqs then reqs
    else if reqs[r].ctr == 1 then reqs - {r} else reqs[r := reqs[r].(ctr := reqs[r].ctr - 1)]
  }

  function Destroying(reqs: Reqs, r: nat): set<nat> {
    if r in reqs && reqs[r].ctr == 1 then {r} else {}
  }

  lemma DroppedSame(reqs: Reqs, r: nat)
    ensures forall q | q in Dropped(reqs, r) ::
      q in reqs && Dropped(reqs, r)[q].unique == reqs[q].unique && Dropped(reqs, r)[q].func == reqs[q].func &&
      Dropped(reqs, r)[q].interrupted == reqs[q].interrupted
  {
  }

  /** A handler gives up its reference: the request goes if that was the last one. */
  lemma CountedReleased(reqs: Reqs, list: seq<nat>, handlers: Handlers, h: nat)
    requires h in handlers && Counted(reqs, list, handlers)
    ensures var r := handlers[h].req;
      r in reqs && Counted(Dropped(reqs, r), list, handlers - {h}) &&
      (r !in Dropped(reqs, r) ==> r !in list && forall g | g in handlers && g != h :: handlers[g].req != r)
  {
    var r := handlers[h].req;
    forall q | q in reqs ensures |Users(handlers - {h}, q)| == |Users(handlers, q)| - if r == q then 1 else 0 {
      UsersGone(handlers, h, q);
    }
    if reqs[r].ctr == 1 {
      NoUsers(handlers - {h}, r);
      assert forall g | g in handlers && g != h :: g in handlers - {h} && (handlers - {h})[g] == handlers[g];
    }
    hide Users;
  }

  lemma NoUsers(handlers: Handlers, r: nat)
    ensures |Users(handlers, r)| <= 0 ==> forall g | g in handlers :: handlers[g].req != r
  {
    var users := Users(handlers, r);
    assert forall g | g in handlers && handlers[g].req == r :: g in users;
  }

  /** The owner of the request gives up its place in the list. */
  lemma CountedFreed(reqs: Reqs, list: seq<nat>, handlers: Handlers, k: nat)
    requires Counted(reqs, list, handlers) && k < |list|
    ensures list[k] in reqs && reqs[list[k]].ctr > 0 && list[k] !in list[..k] + list[k + 1..]
    ensures var r, list' := list[k], list[..k] + list[k + 1..];
      if reqs[r].ctr > 1 then Counted(reqs[r := reqs[r].(ctr := reqs[r].ctr - 1, func := None)], list', handlers)
      else Counted(reqs - {r}, list', handlers) && forall g | g in handlers :: handlers[g].req != r
  {
    var r, list' := list[k], list[..k] + list[k + 1..];
    OthersStay(list, k);
    NoUsers(handlers, r);
    hide Users;
  }

  lemma OthersStay(list: seq<nat>, k: nat)
    requires Distinct(list) && k < |list|
    ensures var list' := list[..k] + list[k + 1..];
      Distinct(list') && list[k] !in list' && forall q :: q in list' <==> q in list && q != list[k]
  {
    var list' := list[..k] + list[k + 1..];
    forall q | q in list && q != list[k] ensures q in list' {
      var i :| 0 <= i < |list| && list[i] == q;
      assert q == if i < k then list'[i] else list'[i - 1];
    }
  }

  // ---------- the steps of Locked ----------

  lemma LockedNew(reqs: Reqs, list: seq<nat>, handlers: Handlers, registering: Registering, r: nat, req: Req)
    requires Locked(reqs, list, handlers, registering) && r !in reqs && req.lock == None
    requires forall h | h in handlers :: handlers[h].req in reqs
    requires forall q | q in list :: q in reqs
    ensures Locked(reqs[r := req], list + [r], handlers, registering)
  {
    assert forall q :: q in list + [r] <==> q in list || q == r;
  }

  lemma LockedFound(reqs: Reqs, list: seq<nat>, handlers: Handlers, registering: Registering, h: nat, r: nat)
    requires Locked(reqs, list, handlers, registering) && h !in handlers && r in reqs
    ensures Locked(reqs[r := reqs[r].(ctr := reqs[r].ctr + 1)], list, handlers[h := Found(r)], registering)
  {
  }

  lemma LockedMarked(reqs: Reqs, list: seq<nat>, handlers: Handlers, registering: Registering, h: nat)
    requires Locked(reqs, list, handlers, registering) && h in handlers && handlers[h].Found? && handlers[h].req in reqs
    requires reqs[handlers[h].req].lock == None
    ensures var r := handlers[h].req;
      Locked(reqs[r := reqs[r].(interrupted := true, lock := Some(Handling(h)))], list,
             handlers[h := Marked(r, reqs[r].func)], registering)
  {
  }

  lemma LockedCalled(reqs: Reqs, list: seq<nat>, handlers: Handlers, registering: Registering, h: nat)
    requires Locked(reqs, list, handlers, registering) && h in handlers && handlers[h].Marked?
    requires handlers[h].req in reqs
    ensures var r := handlers[h].req; Locked(reqs[r := reqs[r].(lock := None)], list, handlers[h := Called(r)],
                                             registering)
    ensures handlers[h].req !in registering
  {
  }

  lemma LockedReleased(reqs: Reqs, list: seq<nat>, handlers: Handlers, registering: Registering, h: nat, r: nat)
    requires Locked(reqs, list, handlers, registering) && h in handlers && handlers[h] == Called(r) && r in reqs
    requires r !in Dropped(reqs, r) ==> r !in list
    ensures Locked(Dropped(reqs, r), list, handlers - {h}, registering)
  {
  }

  lemma LockedFreed(reqs: Reqs, list: seq<nat>, handlers: Handlers, registering: Registering, r: nat,
                    list': seq<nat>, reqs': Reqs)
    requires Locked(reqs, list, handlers, registering) && r in reqs && r !in registering
    requires forall q :: q in list' <==> q in list && q != r
    requires reqs' == reqs[r := reqs[r].(ctr := reqs[r].ctr - 1, func := None)] ||
             (reqs' == reqs - {r} && forall g | g in handlers :: handlers[g].req != r)
    ensures Locked(reqs', list', handlers, registering)
  {
  }

  lemma LockedRegister(reqs: Reqs, list: seq<nat>, handlers: Handlers, registering: Registering, r: nat,
                       func: Option<nat>)
    requires Locked(reqs, list, handlers, registering) && r in list && r in reqs && reqs[r].lock == None
    ensures Locked(reqs[r := reqs[r].(lock := Some(Registrar), func := func)], list, handlers, registering[r := func])
    ensures forall h | h in handlers && handlers[h].Marked? :: handlers[h].req != r
  {
  }

  lemma LockedRegistered(reqs: Reqs, list: seq<nat>, handlers: Handlers, registering: Registering, r: nat)
    requires Locked(reqs, list, handlers, registering) && r in registering
    ensures r in reqs && r in list && Locked(reqs[r := reqs[r].(lock := None)], list, handlers, registering - {r})
  {
  }

  // ---------- the steps of Waiting ----------

  /** A request comes, and no interrupt waits for it (any more). */
  lemma WaitingNew(reqs: Reqs, list: seq<nat>, intrs: map<nat, nat>, interrupts: seq<nat>, r: nat, req: Req)
    requires Waiting(reqs, list, intrs, interrupts) && r !in reqs && forall q | q in list :: q in reqs
    requires forall i | i in interrupts && i in intrs :: intrs[i] != req.unique
    ensures Waiting(reqs[r := req], list + [r], intrs, interrupts)
  {
    assert forall q :: q in list + [r] <==> q in list || q == r;
  }

  /** An interrupt is taken from the waiting ones. */
  lemma WaitingTaken(reqs: Reqs, list: seq<nat>, intrs: map<nat, nat>, interrupts: seq<nat>, k: nat)
    requires Waiting(reqs, list, intrs, interrupts) && k < |interrupts|
    ensures var i, rest := interrupts[k], interrupts[..k] + interrupts[k + 1..];
      && i in intrs && i !in rest && (forall j :: j in rest <==> j in interrupts && j != i)
      && Waiting(reqs, list, intrs, rest) && Waiting(reqs, list, intrs - {i}, rest)
      && forall j | j in rest && j in intrs :: intrs[j] != intrs[i]
  {
    OthersStay(interrupts, k);
    var rest := interrupts[..k] + interrupts[k + 1..];
    forall j | j in rest && j in intrs ensures intrs[j] != intrs[interrupts[k]] {
      var m :| 0 <= m < |rest| && rest[m] == j;
      assert j == if m < k then interrupts[m] else interrupts[m + 1];
    }
  }

  /** An interrupt for which there is no request and no other interrupt waits. */
  lemma WaitingPut(reqs: Reqs, list: seq<nat>, intrs: map<nat, nat>, interrupts: seq<nat>, i: nat, unique: nat)
    requires Waiting(reqs, list, intrs, interrupts) && i !in intrs
    requires forall r | r in list && r in reqs :: reqs[r].unique != unique
    requires forall j | j in interrupts && j in intrs :: intrs[j] != unique
    ensures Waiting(reqs, list, intrs[i := unique], interrupts + [i])
  {
  }

  /** A request changes but for its id, or leaves the list; and interrupts come and go elsewhere. */
  lemma WaitingSame(reqs: Reqs, list: seq<nat>, intrs: map<nat, nat>, interrupts: seq<nat>, reqs': Reqs,
                    list': seq<nat>, intrs': map<nat, nat>)
    requires Waiting(reqs, list, intrs, interrupts)
    requires forall r | r in list' :: r in list && (r in reqs' ==> r in reqs && reqs'[r].unique == reqs[r].unique)
    requires forall i | i in interrupts && i in intrs :: i in intrs' && intrs'[i] == intrs[i]
    ensures Waiting(reqs', list', intrs', interrupts)
  {
  }

  // ---------- the steps of Invoked ----------

  lemma InvokedNew(reqs: Reqs, list: seq<nat>, handlers: Handlers, registering: Registering, calls: Ran,
                   r: nat, req: Req)
    requires Invoked(reqs, list, handlers, registering, calls) && r !in reqs && req.func == None
    ensures Invoked(reqs[r := req], list + [r], handlers, registering, calls)
  {
  }

  /** Requests change at most in their counts and locks, or leave. */
  lemma InvokedSame(reqs: Reqs, list: seq<nat>, handlers: Handlers, registering: Registering, calls: Ran,
                    reqs': Reqs, list': seq<nat>, handlers': Handlers)
    requires Invoked(reqs, list, handlers, registering, calls)
    requires forall r | r in list' && r in reqs' ::
      r in list && r in reqs && reqs'[r].interrupted == reqs[r].interrupted && reqs'[r].func == reqs[r].func
    requires forall h | h in handlers && handlers[h].Marked? :: h in handlers' && handlers'[h] == handlers[h]
    ensures Invoked(reqs', list', handlers', registering, calls)
  {
  }

  lemma InvokedMarked(reqs: Reqs, list: seq<nat>, handlers: Handlers, registering: Registering, calls: Ran, h: nat)
    requires Invoked(reqs, list, handlers, registering, calls) && h in handlers && handlers[h].Found?
    requires handlers[h].req in reqs
    ensures var r := handlers[h].req;
      Invoked(reqs[r := reqs[r].(interrupted := true, lock := Some(Handling(h)))], list,
              handlers[h := Marked(r, reqs[r].func)], registering, calls)
  {
    var r := handlers[h].req;
    assert handlers[h := Marked(r, reqs[r].func)][h] == Marked(r, reqs[r].func);
    forall g | g in handlers && handlers[g].Marked? ensures handlers[h := Marked(r, reqs[r].func)][g] == handlers[g] {
    }
  }

  lemma InvokedCalled(reqs: Reqs, list: seq<nat>, handlers: Handlers, registering: Registering, calls: Ran, h: nat)
    requires Invoked(reqs, list, handlers, registering, calls) && h in handlers && handlers[h].Marked?
    requires handlers[h].req in reqs
    ensures var r, func := handlers[h].req, handlers[h].func;
      Invoked(reqs[r := reqs[r].(lock := None)], list, handlers[h := Called(r)], registering,
              if func.Some? then calls + {(r, func.value)} else calls)
  {
    var r, func := handlers[h].req, handlers[h].func;
    forall g | g in handlers && handlers[g].Marked? && g != h ensures handlers[h := Called(r)][g] == handlers[g] {
    }
  }

  lemma InvokedRegister(reqs: Reqs, list: seq<nat>, handlers: Handlers, registering: Registering, calls: Ran,
                        r: nat, func: Option<nat>)
    requires Invoked(reqs, list, handlers, registering, calls) && r in reqs
    ensures Invoked(reqs[r := reqs[r].(lock := Some(Registrar), func := func)], list, handlers, registering[r := func],
                    calls)
  {
  }

  lemma InvokedRegistered(reqs: Reqs, list: seq<nat>, handlers: Handlers, registering: Registering, calls: Ran, r: nat)
    requires Invoked(reqs, list, handlers, registering, calls) && r in reqs && r in registering
    ensures Invoked(reqs[r := reqs[r].(lock := None)], list, handlers, registering - {r},
                    if reqs[r].interrupted && reqs[r].func.Some? then calls + {(r, reqs[r].func.value)} else calls)
  {
  }

  // ---------- the steps of Fated ----------

  type Fates = map<nat, Fate>

  /** A waiting interrupt finds its request, or is sent back to the kernel. */
  lemma FatedTaken(intrs: map<nat, nat>, interrupts: seq<nat>, handlers: Handlers, answering: set<nat>, fates: Fates,
                   flagged: set<nat>, k: nat, r: nat)
    requires Fated(intrs, interrupts, handlers, answering, fates, flagged) && Distinct(interrupts) && k < |interrupts|
    ensures var i, rest := interrupts[k], interrupts[..k] + interrupts[k + 1..];
      && i in fates && fates[i] == Pending
      && Fated(intrs - {i}, rest, handlers, answering, fates[i := Done(r)], flagged + {r})
      && Fated(intrs, rest, handlers, answering + {i}, fates[i := Again], flagged)
  {
    OthersStay(interrupts, k);
    var i := interrupts[k];
    assert i in interrupts && i in fates;
    assert fates[i] == Pending by {
      match fates[i]
      case Pending =>
      case Handled(q) =>
      case Done(q) =>
      case Duplicate =>
      case Again =>
    }
  }

  lemma FatedAnswered(intrs: map<nat, nat>, interrupts: seq<nat>, handlers: Handlers, answering: set<nat>,
                      fates: Fates, flagged: set<nat>, i: nat)
    requires Fated(intrs, interrupts, handlers, answering, fates, flagged) && i in answering
    ensures i in intrs && Fated(intrs - {i}, interrupts, handlers, answering - {i}, fates, flagged)
  {
  }

  lemma FatedNew(intrs: map<nat, nat>, interrupts: seq<nat>, handlers: Handlers, answering: set<nat>, fates: Fates,
                 flagged: set<nat>, i: nat, unique: nat, r: nat)
    requires Fated(intrs, interrupts, handlers, answering, fates, flagged) && i !in fates
    ensures i !in handlers
    ensures Fated(intrs[i := unique], interrupts, handlers[i := Found(r)], answering, fates[i := Handled(r)], flagged)
    ensures Fated(intrs[i := unique], interrupts + [i], handlers, answering, fates[i := Pending], flagged)
    ensures Fated(intrs, interrupts, handlers, answering, fates[i := Duplicate], flagged)
  {
    assert forall j :: j in interrupts + [i] <==> j in interrupts || j == i;
  }

  lemma FatedStep(intrs: map<nat, nat>, interrupts: seq<nat>, handlers: Handlers, answering: set<nat>, fates: Fates,
                  flagged: set<nat>, h: nat, handler: Handler)
    requires Fated(intrs, interrupts, handlers, answering, fates, flagged) && h in handlers
    requires handler.req == handlers[h].req
    ensures Fated(intrs, interrupts, handlers[h := handler], answering, fates, flagged + {handler.req})
    ensures h in intrs && h in fates && fates[h] == Handled(handler.req)
    ensures (!handlers[h].Found? ==> handler.req in flagged)
  {
    assert h in fates;
    match fates[h]
    case Pending =>
    case Handled(q) =>
    case Done(q) =>
    case Duplicate =>
    case Again =>
  }

  lemma FatedReleased(intrs: map<nat, nat>, interrupts: seq<nat>, handlers: Handlers, answering: set<nat>,
                      fates: Fates, flagged: set<nat>, h: nat)
    requires Fated(intrs, interrupts, handlers, answering, fates, flagged) && h in handlers && handlers[h].Called?
    ensures h in intrs
    ensures Fated(intrs - {h}, interrupts, handlers - {h}, answering, fates[h := Done(handlers[h].req)], flagged)
  {
    FatedStep(intrs, interrupts, handlers, answering, fates, flagged, h, handlers[h]);
  }

  // ---------- everything ----------

  datatype Session = Session(reqs: Reqs, list: seq<nat>, intrs: map<nat, nat>, interrupts: seq<nat>, handlers: Handlers,
                             registering: Registering, answering: set<nat>)

  /** What has happened so far: `targets` says for which id each interrupt came and `uniques` which id
      each request had; `rivals` names the interrupt that waited when a duplicate came, and `handed`
      the interrupts that were handed out to be answered. */
  datatype History = History(made: nat, destroyed: set<nat>, fates: Fates, flagged: set<nat>, calls: Ran,
                             targets: map<nat, nat>, uniques: map<nat, nat>, rivals: map<nat, nat>, handed: set<nat>)

  const NOTHING: History := History(0, {}, map[], {}, {}, map[], map[], map[], {})

  /** Every fate has its reason: an interrupt is handled for a request of its id and no other, is a
      duplicate of an earlier one with its id, and is sent back exactly if it was handed out. */
  ghost predicate Told(reqs: Reqs, intrs: map<nat, nat>, h: History) {
    h.targets.Keys == h.fates.Keys && (forall a | a in h.targets || a in h.uniques :: a < h.made) &&
    (forall i | i in intrs :: i in h.targets && h.targets[i] == intrs[i]) &&
    (forall r | r in reqs :: r in h.uniques && h.uniques[r] == reqs[r].unique) &&
    (forall i :: i in h.handed <==> i in h.fates && h.fates[i].Again?) &&
    forall i | i in h.fates :: Reasoned(h, i)
  }

  ghost predicate Reasoned(h: History, i: nat)
    requires i in h.fates
  {
    match h.fates[i]
    case Handled(r) => i in h.targets && r in h.uniques && h.uniques[r] == h.targets[i]
    case Done(r) => i in h.targets && r in h.uniques && h.uniques[r] == h.targets[i]
    case Duplicate =>
      i in h.targets && i in h.rivals && h.rivals[i] < i && h.rivals[i] in h.targets &&
      h.targets[h.rivals[i]] == h.targets[i]
    case _ => true
  }

  /** Requests keep their ids, and what is left of the interrupts their targets. */
  lemma ToldSame(reqs: Reqs, intrs: map<nat, nat>, h: History, reqs': Reqs, intrs': map<nat, nat>, h': History)
    requires Told(reqs, intrs, h) && h' == h.(destroyed := h'.destroyed, flagged := h'.flagged, calls := h'.calls)
    requires forall r | r in reqs' :: r in reqs && reqs'[r].unique == reqs[r].unique
    requires forall i | i in intrs' :: i in intrs && intrs'[i] == intrs[i]
    ensures Told(reqs', intrs', h')
  {
    forall i | i in h'.fates ensures Reasoned(h', i) {
      assert Reasoned(h, i);
    }
  }

  lemma ToldReq(reqs: Reqs, intrs: map<nat, nat>, h: History, r: nat, req: Req, destroyed: set<nat>,
                flagged: set<nat>, calls: Ran)
    requires Told(reqs, intrs, h) && r in reqs && req.unique == reqs[r].unique
    ensures Told(reqs[r := req], intrs, h.(destroyed := destroyed, flagged := flagged, calls := calls))
    ensures Told(reqs - {r}, intrs, h.(destroyed := destroyed, flagged := flagged, calls := calls))
  {
    var h' := h.(destroyed := destroyed, flagged := flagged, calls := calls);
    ToldSame(reqs, intrs, h, reqs[r := req], intrs, h');
    ToldSame(reqs, intrs, h, reqs - {r}, intrs, h');
  }

  /** A request comes and takes up an interrupt with its id, or none. */
  lemma ToldArrived(reqs: Reqs, intrs: map<nat, nat>, h: History, req: Req, i: nat, h': History)
    requires Told(reqs, intrs, h) && i in intrs && i in h.fates && h.fates[i] == Pending
    requires h' == h.(made := h.made + 1, uniques := h.uniques[h.made := req.unique],
                      destroyed := h'.destroyed, flagged := h'.flagged, fates := h'.fates, handed := h'.handed)
    requires (intrs[i] == req.unique && h'.fates == h.fates[i := Done(h.made)] && h'.handed == h.handed) ||
             (h'.fates == h.fates[i := Again] && h'.handed == h.handed + {i})
    ensures Told(reqs[h.made := req], intrs, h') && Told(reqs[h.made := req], intrs - {i}, h')
  {
    forall j | j in h'.fates ensures Reasoned(h', j) {
      assert Reasoned(h, j);
    }
  }

  lemma ToldListed(reqs: Reqs, intrs: map<nat, nat>, h: History, req: Req)
    requires Told(reqs, intrs, h)
    ensures Told(reqs[h.made := req], intrs, h.(made := h.made + 1, uniques := h.uniques[h.made := req.unique]))
  {
    var h' := h.(made := h.made + 1, uniques := h.uniques[h.made := req.unique]);
    forall j | j in h'.fates ensures Reasoned(h', j) {
      assert Reasoned(h, j);
    }
  }

  lemma ToldFate(reqs: Reqs, intrs: map<nat, nat>, h: History, unique: nat, fate: Fate, rivals: map<nat, nat>,
                 h': History, i: nat)
    requires Told(reqs, intrs, h) && !fate.Again? && i in h'.fates
    requires forall j | j in h.fates && j in h.rivals :: j in rivals && rivals[j] == h.rivals[j]
    requires fate.Handled? || fate.Done? ==> fate.req in reqs && reqs[fate.req].unique == unique
    requires fate.Duplicate? ==> h.made in rivals && rivals[h.made] in intrs && intrs[rivals[h.made]] == unique
    requires h'.fates == h.fates[h.made := fate] && h'.targets == h.targets[h.made := unique]
    requires h'.rivals == rivals && h'.uniques == h.uniques
    ensures Reasoned(h', i)
  {
    assert h.made !in h.fates;
    if i != h.made {
      assert Reasoned(h, i);
    }
  }

  /** An interrupt comes. */
  lemma ToldNew(reqs: Reqs, intrs: map<nat, nat>, h: History, unique: nat, fate: Fate, rivals: map<nat, nat>,
                destroyed: set<nat>)
    requires Told(reqs, intrs, h) && !fate.Again?
    requires forall j | j in h.fates && j in h.rivals :: j in rivals && rivals[j] == h.rivals[j]
    requires fate.Handled? || fate.Done? ==> fate.req in reqs && reqs[fate.req].unique == unique
    requires fate.Duplicate? ==> h.made in rivals && rivals[h.made] in intrs && intrs[rivals[h.made]] == unique
    ensures var h' := h.(made := h.made + 1, destroyed := destroyed, fates := h.fates[h.made := fate],
                         targets := h.targets[h.made := unique], rivals := rivals);
      Told(reqs, intrs, h') && Told(reqs, intrs[h.made := unique], h')
  {
    hide Reasoned;
    var h' := h.(made := h.made + 1, destroyed := destroyed, fates := h.fates[h.made := fate],
                 targets := h.targets[h.made := unique], rivals := rivals);
    forall j | j in h'.fates ensures Reasoned(h', j) {
      ToldFate(reqs, intrs, h, unique, fate, rivals, h', j);
    }
  }

  /** A handler is through with its interrupt. */
  lemma ToldDone(reqs: Reqs, intrs: map<nat, nat>, h: History, i: nat, r: nat, destroyed: set<nat>)
    requires Told(reqs, intrs, h) && i in h.fates && h.fates[i] == Handled(r)
    ensures Told(reqs, intrs, h.(destroyed := destroyed, fates := h.fates[i := Done(r)]))
  {
    var h' := h.(destroyed := destroyed, fates := h.fates[i := Done(r)]);
    forall j | j in h'.fates ensures Reasoned(h', j) {
      assert Reasoned(h, j);
    }
  }

  ghost predicate Good(s: Session, h: History) {
    Counted(s.reqs, s.list, s.handlers) && Locked(s.reqs, s.list, s.handlers, s.registering) &&
    Waiting(s.reqs, s.list, s.intrs, s.interrupts) && Invoked(s.reqs, s.list, s.handlers, s.registering, h.calls) &&
    Fated(s.intrs, s.interrupts, s.handlers, s.answering, h.fates, h.flagged) &&
    Owned(s.reqs, s.intrs, h.destroyed, h.made, h.fates, h.flagged) && Told(s.reqs, s.intrs, h)
  }

  lemma ListsIn(reqs: Reqs, list: seq<nat>, handlers: Handlers)
    requires Counted(reqs, list, handlers)
    ensures (forall r | r in list :: r in reqs) && Distinct(list) && forall h | h in handlers :: handlers[h].req in reqs
  {
  }

  lemma InterruptsIn(reqs: Reqs, list: seq<nat>, intrs: map<nat, nat>, interrupts: seq<nat>)
    requires Waiting(reqs, list, intrs, interrupts)
    ensures (forall i | i in interrupts :: i in intrs) && Distinct(interrupts)
  {
  }

  lemma OwnedListed(reqs: Reqs, intrs: map<nat, nat>, destroyed: set<nat>, made: nat, fates: Fates, flagged: set<nat>,
                    req: Req)
    requires Owned(reqs, intrs, destroyed, made, fates, flagged)
    ensures made !in reqs && made !in destroyed
    ensures !req.interrupted ==> Owned(reqs[made := req], intrs, destroyed, made + 1, fates, flagged)
    ensures !req.interrupted ==> forall i | i in intrs ::
      Owned(reqs[made := req], intrs, destroyed, made + 1, fates[i := Again], flagged)
    ensures req.interrupted ==> forall i | i in intrs ::
      Owned(reqs[made := req], intrs - {i}, destroyed + {i}, made + 1, fates[i := Done(made)], flagged + {made})
  {
  }

  /** A request enters the list: what does not depend on the waiting interrupts. */
  lemma Listed(s: Session, h: History, req: Req)
    requires Good(s, h) && req.ctr == 1 && req.func == None && req.lock == None
    ensures h.made !in s.reqs && h.made !in h.destroyed
    ensures Counted(s.reqs[h.made := req], s.list + [h.made], s.handlers)
    ensures Locked(s.reqs[h.made := req], s.list + [h.made], s.handlers, s.registering)
    ensures Invoked(s.reqs[h.made := req], s.list + [h.made], s.handlers, s.registering, h.calls)
  {
    hide Told, Counted, Locked, Waiting, Invoked, Fated, Distinct, Owned;
    ListsIn(s.reqs, s.list, s.handlers);
    OwnedListed(s.reqs, s.intrs, h.destroyed, h.made, h.fates, h.flagged, req);
    CountedNew(s.reqs, s.list, s.handlers, h.made, req);
    LockedNew(s.reqs, s.list, s.handlers, s.registering, h.made, req);
    InvokedNew(s.reqs, s.list, s.handlers, s.registering, h.calls, h.made, req);
  }

  /** An ordinary request arrives and takes up the interrupt that `check_interrupt` has found. */
  lemma TakesUp(s: Session, h: History, unique: nat, k: nat)
    requires Good(s, h) && k < |s.interrupts| && s.interrupts[k] in s.intrs && s.intrs[s.interrupts[k]] == unique
    ensures h.made !in s.reqs && h.made !in h.destroyed
    ensures var i, r := s.interrupts[k], h.made;
      Good(s.(reqs := s.reqs[r := Req(unique, 1, true, None, None)], list := s.list + [r], intrs := s.intrs - {i},
              interrupts := s.interrupts[..k] + s.interrupts[k + 1..]),
           h.(made := r + 1, uniques := h.uniques[r := unique], destroyed := h.destroyed + {i},
              fates := h.fates[i := Done(r)], flagged := h.flagged + {r}))
  {
    hide Told, Counted, Locked, Waiting, Invoked, Fated, Distinct, Owned;
    var i, r, req := s.interrupts[k], h.made, Req(unique, 1, true, None, None);
    var rest := s.interrupts[..k] + s.interrupts[k + 1..];
    Listed(s, h, req);
    ListsIn(s.reqs, s.list, s.handlers);
    InterruptsIn(s.reqs, s.list, s.intrs, s.interrupts);
    OwnedListed(s.reqs, s.intrs, h.destroyed, h.made, h.fates, h.flagged, req);
    WaitingTaken(s.reqs, s.list, s.intrs, s.interrupts, k);
    FatedTaken(s.intrs, s.interrupts, s.handlers, s.answering, h.fates, h.flagged, k, r);
    WaitingNew(s.reqs, s.list, s.intrs - {i}, rest, r, req);
    ToldArrived(s.reqs, s.intrs, h, req, i,
                h.(made := r + 1, uniques := h.uniques[r := unique], destroyed := h.destroyed + {i},
                   fates := h.fates[i := Done(r)], flagged := h.flagged + {r}));
  }

  lemma FirstTaken(s: Session, h: History)
    requires Good(s, h) && s.interrupts != []
    ensures var i, rest := s.interrupts[0], s.interrupts[1..];
      && i in s.intrs && i in h.fates && h.fates[i] == Pending
      && (forall j | j in rest :: j in s.interrupts) && Waiting(s.reqs, s.list, s.intrs, rest)
      && Fated(s.intrs, rest, s.handlers, s.answering + {i}, h.fates[i := Again], h.flagged)
  {
    hide Told, Counted, Locked, Waiting, Invoked, Fated, Distinct, Owned;
    InterruptsIn(s.reqs, s.list, s.intrs, s.interrupts);
    assert s.interrupts[1..] == s.interrupts[..0] + s.interrupts[0 + 1..];
    WaitingTaken(s.reqs, s.list, s.intrs, s.interrupts, 0);
    FatedTaken(s.intrs, s.interrupts, s.handlers, s.answering, h.fates, h.flagged, 0, 0);
  }

  /** No interrupt waits for the request that arrives, and the first one that waits is sent back. */
  lemma SendsBack(s: Session, h: History, unique: nat)
    requires Good(s, h) && s.interrupts != []
    requires forall i | i in s.interrupts && i in s.intrs :: s.intrs[i] != unique
    ensures h.made !in s.reqs && h.made !in h.destroyed
    ensures var i, r := s.interrupts[0], h.made;
      Good(s.(reqs := s.reqs[r := Req(unique, 1, false, None, None)], list := s.list + [r],
              interrupts := s.interrupts[1..], answering := s.answering + {i}),
           h.(made := r + 1, uniques := h.uniques[r := unique], fates := h.fates[i := Again],
              handed := h.handed + {i}))
  {
    hide Told, Counted, Locked, Waiting, Invoked, Fated, Distinct, Owned;
    var i, r, req := s.interrupts[0], h.made, Req(unique, 1, false, None, None);
    Listed(s, h, req);
    ListsIn(s.reqs, s.list, s.handlers);
    InterruptsIn(s.reqs, s.list, s.intrs, s.interrupts);
    OwnedListed(s.reqs, s.intrs, h.destroyed, h.made, h.fates, h.flagged, req);
    FirstTaken(s, h);
    WaitingNew(s.reqs, s.list, s.intrs, s.interrupts[1..], r, req);
    ToldArrived(s.reqs, s.intrs, h, req, i,
                h.(made := r + 1, uniques := h.uniques[r := unique], fates := h.fates[i := Again],
                   handed := h.handed + {i}));
  }

  /** A request arrives and no interrupt waits. */
  lemma NoneWaits(s: Session, h: History, unique: nat)
    requires Good(s, h) && s.interrupts == []
    ensures h.made !in s.reqs && h.made !in h.destroyed
    ensures Good(s.(reqs := s.reqs[h.made := Req(unique, 1, false, None, None)], list := s.list + [h.made]),
                 h.(made := h.made + 1, uniques := h.uniques[h.made := unique]))
  {
    hide Told, Counted, Locked, Waiting, Invoked, Fated, Distinct, Owned;
    var req := Req(unique, 1, false, None, None);
    Listed(s, h, req);
    ListsIn(s.reqs, s.list, s.handlers);
    OwnedListed(s.reqs, s.intrs, h.destroyed, h.made, h.fates, h.flagged, req);
    WaitingNew(s.reqs, s.list, s.intrs, s.interrupts, h.made, req);
    ToldListed(s.reqs, s.intrs, h, req);
  }

  /** A request arrives: the three cases together. At most one interrupt waits for it. */
  lemma Arrives(s: Session, h: History, unique: nat, hit: Option<nat>) returns (s': Session, h': History)
    requires Good(s, h)
    requires if hit.Some? then hit.value < |s.interrupts| && s.interrupts[hit.value] in s.intrs &&
                               s.intrs[s.interrupts[hit.value]] == unique
             else forall i | i in s.interrupts && i in s.intrs :: s.intrs[i] != unique
    ensures Good(s', h') && h.made !in s.reqs
    ensures hit.Some? <==> exists i :: i in s.interrupts && i in s.intrs && s.intrs[i] == unique
    ensures forall i | i in s.interrupts && i in s.intrs && s.intrs[i] == unique ::
      i in h'.fates && h'.fates[i] == Done(h.made)
    ensures hit.Some? ==> var k, r := hit.value, h.made; var i := s.interrupts[k];
      && s' == s.(reqs := s.reqs[r := Req(unique, 1, true, None, None)], list := s.list + [r],
                  intrs := s.intrs - {i}, interrupts := s.interrupts[..k] + s.interrupts[k + 1..])
      && h' == h.(made := r + 1, uniques := h.uniques[r := unique], destroyed := h.destroyed + {i},
                  fates := h.fates[i := Done(r)], flagged := h.flagged + {r})
    ensures hit.None? && s.interrupts != [] ==> var i, r := s.interrupts[0], h.made;
      && s' == s.(reqs := s.reqs[r := Req(unique, 1, false, None, None)], list := s.list + [r],
                  interrupts := s.interrupts[1..], answering := s.answering + {i})
      && h' == h.(made := r + 1, uniques := h.uniques[r := unique], fates := h.fates[i := Again],
                  handed := h.handed + {i})
    ensures hit.None? && s.interrupts == [] ==> var r := h.made;
      && s' == s.(reqs := s.reqs[r := Req(unique, 1, false, None, None)], list := s.list + [r])
      && h' == h.(made := r + 1, uniques := h.uniques[r := unique])
  {
    hide Told, Counted, Locked, Waiting, Invoked, Fated, Distinct, Owned;
    var r := h.made;
    if hit.Some? {
      var i := s.interrupts[hit.value];
      TakesUp(s, h, unique, hit.value);
      WaitingTaken(s.reqs, s.list, s.intrs, s.interrupts, hit.value);
      assert i in s.interrupts;
      s' := s.(reqs := s.reqs[r := Req(unique, 1, true, None, None)], list := s.list + [r], intrs := s.intrs - {i},
               interrupts := s.interrupts[..hit.value] + s.interrupts[hit.value + 1..]);
      h' := h.(made := r + 1, uniques := h.uniques[r := unique], destroyed := h.destroyed + {i},
               fates := h.fates[i := Done(r)], flagged := h.flagged + {r});
    } else if s.interrupts != [] {
      var i := s.interrupts[0];
      SendsBack(s, h, unique);
      s' := s.(reqs := s.reqs[r := Req(unique, 1, false, None, None)], list := s.list + [r],
               interrupts := s.interrupts[1..], answering := s.answering + {i});
      h' := h.(made := r + 1, uniques := h.uniques[r := unique], fates := h.fates[i := Again],
               handed := h.handed + {i});
    } else {
      NoneWaits(s, h, unique);
      s' := s.(reqs := s.reqs[r := Req(unique, 1, false, None, None)], list := s.list + [r]);
      h' := h.(made := r + 1, uniques := h.uniques[r := unique]);
    }
  }

  lemma OwnedReq(reqs: Reqs, intrs: map<nat, nat>, destroyed: set<nat>, made: nat, fates: Fates, flagged: set<nat>,
                 r: nat, req: Req)
    requires Owned(reqs, intrs, destroyed, made, fates, flagged) && r in reqs
    ensures req.interrupted == reqs[r].interrupted ==> Owned(reqs[r := req], intrs, destroyed, made, fates, flagged)
    ensures req.interrupted ==> Owned(reqs[r := req], intrs, destroyed, made, fates, flagged + {r})
    ensures r !in destroyed && Owned(reqs - {r}, intrs, destroyed + {r}, made, fates, flagged)
  {
  }

  lemma OwnedIntr(reqs: Reqs, intrs: map<nat, nat>, destroyed: set<nat>, made: nat, fates: Fates, flagged: set<nat>,
                  i: nat, fate: Fate)
    requires Owned(reqs, intrs, destroyed, made, fates, flagged) && i in intrs
    ensures i !in destroyed && Owned(reqs, intrs - {i}, destroyed + {i}, made, fates[i := fate], flagged)
  {
  }

  /** The answer EAGAIN has been sent and the interrupt freed. */
  lemma Answers(s: Session, h: History, i: nat)
    requires Good(s, h) && i in s.answering
    ensures i in s.intrs && i !in h.destroyed
    ensures Good(s.(intrs := s.intrs - {i}, answering := s.answering - {i}), h.(destroyed := h.destroyed + {i}))
  {
    hide Told, Counted, Locked, Waiting, Invoked, Fated;
    FatedAnswered(s.intrs, s.interrupts, s.handlers, s.answering, h.fates, h.flagged, i);
    NotWaiting(s.intrs, s.interrupts, s.handlers, s.answering, h.fates, h.flagged, i);
    WaitingSame(s.reqs, s.list, s.intrs, s.interrupts, s.reqs, s.list, s.intrs - {i});
    ToldSame(s.reqs, s.intrs, h, s.reqs, s.intrs - {i}, h.(destroyed := h.destroyed + {i}));
  }

  lemma NotWaiting(intrs: map<nat, nat>, interrupts: seq<nat>, handlers: Handlers, answering: set<nat>, fates: Fates,
                   flagged: set<nat>, i: nat)
    requires Fated(intrs, interrupts, handlers, answering, fates, flagged) && (i in answering || i in handlers)
    ensures i !in interrupts && i in intrs
  {
    assert i in fates;
    match fates[i]
    case Pending =>
    case Handled(q) =>
    case Done(q) =>
    case Duplicate =>
    case Again =>
  }

  /** An interrupt finds its request. */
  lemma Finds(s: Session, h: History, unique: nat, r: nat)
    requires Good(s, h) && r in s.list && r in s.reqs && s.reqs[r].unique == unique
    ensures h.made !in s.handlers && h.made !in s.intrs
    ensures Good(s.(reqs := s.reqs[r := s.reqs[r].(ctr := s.reqs[r].ctr + 1)], intrs := s.intrs[h.made := unique],
                    handlers := s.handlers[h.made := Found(r)]),
                 h.(made := h.made + 1, fates := h.fates[h.made := Handled(r)],
                    targets := h.targets[h.made := unique]))
  {
    var i := h.made;
    hide Told, Counted, Locked, Waiting, Invoked, Fated, Distinct;
    ListsIn(s.reqs, s.list, s.handlers);
    assert i !in h.fates;
    FatedNew(s.intrs, s.interrupts, s.handlers, s.answering, h.fates, h.flagged, i, unique, r);
    CountedFound(s.reqs, s.list, s.handlers, i, r);
    LockedFound(s.reqs, s.list, s.handlers, s.registering, i, r);
    var reqs' := s.reqs[r := s.reqs[r].(ctr := s.reqs[r].ctr + 1)];
    WaitingSame(s.reqs, s.list, s.intrs, s.interrupts, reqs', s.list, s.intrs[i := unique]);
    InvokedSame(s.reqs, s.list, s.handlers, s.registering, h.calls, reqs', s.list, s.handlers[i := Found(r)]);
    ToldSame(s.reqs, s.intrs, h, reqs', s.intrs, h);
    ToldNew(reqs', s.intrs, h, unique, Handled(r), h.rivals, h.destroyed);
  }

  lemma OwnedNew(reqs: Reqs, intrs: map<nat, nat>, destroyed: set<nat>, made: nat, fates: Fates, flagged: set<nat>,
                 unique: nat, fate: Fate)
    requires Owned(reqs, intrs, destroyed, made, fates, flagged)
    ensures made !in fates && made !in intrs && made !in destroyed
    ensures Owned(reqs, intrs[made := unique], destroyed, made + 1, fates[made := fate], flagged)
    ensures Owned(reqs, intrs, destroyed + {made}, made + 1, fates[made := fate], flagged)
  {
  }

  /** An interrupt finds no request, but another one that waits for the same request. */
  lemma FindsRival(s: Session, h: History, unique: nat, j: nat)
    requires Good(s, h) && j in s.intrs && s.intrs[j] == unique
    ensures h.made !in s.intrs && h.made !in h.destroyed
    ensures Good(s, h.(made := h.made + 1, destroyed := h.destroyed + {h.made}, fates := h.fates[h.made := Duplicate],
                       targets := h.targets[h.made := unique], rivals := h.rivals[h.made := j]))
  {
    hide Told, Counted, Locked, Waiting, Invoked, Fated, Owned;
    OwnedNew(s.reqs, s.intrs, h.destroyed, h.made, h.fates, h.flagged, unique, Duplicate);
    FatedNew(s.intrs, s.interrupts, s.handlers, s.answering, h.fates, h.flagged, h.made, unique, 0);
    ToldNew(s.reqs, s.intrs, h, unique, Duplicate, h.rivals[h.made := j], h.destroyed + {h.made});
  }

  /** An interrupt finds neither a request nor another interrupt for it: it waits. */
  lemma FindsNone(s: Session, h: History, unique: nat)
    requires Good(s, h)
    requires forall r | r in s.list && r in s.reqs :: s.reqs[r].unique != unique
    requires forall j | j in s.interrupts && j in s.intrs :: s.intrs[j] != unique
    ensures h.made !in s.intrs && h.made !in h.destroyed
    ensures Good(s.(intrs := s.intrs[h.made := unique], interrupts := s.interrupts + [h.made]),
                 h.(made := h.made + 1, fates := h.fates[h.made := Pending], targets := h.targets[h.made := unique]))
  {
    hide Told, Counted, Locked, Waiting, Invoked, Fated, Owned;
    OwnedNew(s.reqs, s.intrs, h.destroyed, h.made, h.fates, h.flagged, unique, Pending);
    FatedNew(s.intrs, s.interrupts, s.handlers, s.answering, h.fates, h.flagged, h.made, unique, 0);
    WaitingPut(s.reqs, s.list, s.intrs, s.interrupts, h.made, unique);
    ToldNew(s.reqs, s.intrs, h, unique, Pending, h.rivals, h.destroyed);
  }

  /** The handler marks the request. */
  lemma Marks(s: Session, h: History, i: nat)
    requires Good(s, h) && i in s.handlers && s.handlers[i].Found?
    ensures s.handlers[i].req in s.reqs
    ensures var r := s.handlers[i].req;
      s.reqs[r].lock == None ==>
      Good(s.(reqs := s.reqs[r := s.reqs[r].(interrupted := true, lock := Some(Handling(i)))],
              handlers := s.handlers[i := Marked(r, s.reqs[r].func)]),
           h.(flagged := h.flagged + {r}))
  {
    var r := s.handlers[i].req;
    ListsIn(s.reqs, s.list, s.handlers);
    if s.reqs[r].lock == None {
      hide Told, Counted, Locked, Waiting, Invoked, Fated, Distinct, Owned;
      var req := s.reqs[r].(interrupted := true, lock := Some(Handling(i)));
      OwnedReq(s.reqs, s.intrs, h.destroyed, h.made, h.fates, h.flagged, r, req);
      CountedSame(s.reqs, s.list, s.handlers, i, Marked(r, s.reqs[r].func), req);
      LockedMarked(s.reqs, s.list, s.handlers, s.registering, i);
      InvokedMarked(s.reqs, s.list, s.handlers, s.registering, h.calls, i);
      WaitingSame(s.reqs, s.list, s.intrs, s.interrupts, s.reqs[r := req], s.list, s.intrs);
      ToldReq(s.reqs, s.intrs, h, r, req, h.destroyed, h.flagged + {r}, h.calls);
      FatedStep(s.intrs, s.interrupts, s.handlers, s.answering, h.fates, h.flagged, i, Marked(r, s.reqs[r].func));
    }
  }

  /** The handler runs the callback that it has read, and unlocks the request. */
  lemma Calls(s: Session, h: History, i: nat, r: nat, func: Option<nat>)
    requires i in s.handlers && s.handlers[i] == Marked(r, func) && Good(s, h)
    ensures r in s.reqs
    ensures Good(s.(reqs := s.reqs[r := s.reqs[r].(lock := None)], handlers := s.handlers[i := Called(r)]),
                 h.(calls := if func.Some? then h.calls + {(r, func.value)} else h.calls))
  {
    hide Told, Counted, Locked, Waiting, Invoked, Fated, Distinct, Owned;
    ListsIn(s.reqs, s.list, s.handlers);
    var req := s.reqs[r].(lock := None);
    OwnedReq(s.reqs, s.intrs, h.destroyed, h.made, h.fates, h.flagged, r, req);
    CountedSame(s.reqs, s.list, s.handlers, i, Called(r), req);
    LockedCalled(s.reqs, s.list, s.handlers, s.registering, i);
    InvokedCalled(s.reqs, s.list, s.handlers, s.registering, h.calls, i);
    WaitingSame(s.reqs, s.list, s.intrs, s.interrupts, s.reqs[r := req], s.list, s.intrs);
    ToldReq(s.reqs, s.intrs, h, r, req, h.destroyed, h.flagged,
            if func.Some? then h.calls + {(r, func.value)} else h.calls);
    FatedStep(s.intrs, s.interrupts, s.handlers, s.answering, h.fates, h.flagged, i, Called(r));
    assert h.flagged + {r} == h.flagged;
  }

  lemma ReleasesRequest(s: Session, h: History, i: nat, r: nat)
    requires i in s.handlers && s.handlers[i] == Called(r) && Good(s, h)
    ensures r in s.reqs && r !in h.destroyed
    ensures r !in Dropped(s.reqs, r) ==> r !in s.list && forall g | g in s.handlers && g != i :: s.handlers[g].req != r
    ensures var reqs', handlers' := Dropped(s.reqs, r), s.handlers - {i};
      Counted(reqs', s.list, handlers') && Locked(reqs', s.list, handlers', s.registering) &&
      Invoked(reqs', s.list, handlers', s.registering, h.calls) && Waiting(reqs', s.list, s.intrs, s.interrupts) &&
      Owned(reqs', s.intrs, h.destroyed + Destroying(s.reqs, r), h.made, h.fates, h.flagged)
  {
    hide Told, Counted, Locked, Waiting, Invoked, Fated, Distinct, Owned, Dropped, Destroying;
    ListsIn(s.reqs, s.list, s.handlers);
    DroppedSame(s.reqs, r);
    CountedReleased(s.reqs, s.list, s.handlers, i);
    LockedReleased(s.reqs, s.list, s.handlers, s.registering, i, r);
    InvokedSame(s.reqs, s.list, s.handlers, s.registering, h.calls, Dropped(s.reqs, r), s.list, s.handlers - {i});
    WaitingSame(s.reqs, s.list, s.intrs, s.interrupts, Dropped(s.reqs, r), s.list, s.intrs);
    OwnedDropped(s.reqs, s.intrs, h.destroyed, h.made, h.fates, h.flagged, r);
  }

  lemma OwnedDropped(reqs: Reqs, intrs: map<nat, nat>, destroyed: set<nat>, made: nat, fates: Fates,
                     flagged: set<nat>, r: nat)
    requires Owned(reqs, intrs, destroyed, made, fates, flagged) && r in reqs
    ensures r !in destroyed && Owned(Dropped(reqs, r), intrs, destroyed + Destroying(reqs, r), made, fates, flagged)
  {
    OwnedReq(reqs, intrs, destroyed, made, fates, flagged, r, reqs[r].(ctr := reqs[r].ctr - 1));
    assert destroyed + {} == destroyed;
  }

  /** The handler gives up its reference, and the interrupt is destroyed. */
  lemma Releases(s: Session, h: History, i: nat, r: nat)
    requires i in s.handlers && s.handlers[i] == Called(r) && Good(s, h)
    ensures r in s.reqs && i in s.intrs && r !in h.destroyed && i !in h.destroyed
    ensures r !in Dropped(s.reqs, r) ==> r !in s.list && forall g | g in s.handlers && g != i :: s.handlers[g].req != r
    ensures Good(s.(reqs := Dropped(s.reqs, r), intrs := s.intrs - {i}, handlers := s.handlers - {i}),
                 h.(destroyed := h.destroyed + Destroying(s.reqs, r) + {i}, fates := h.fates[i := Done(r)]))
  {
    ReleasesRequest(s, h, i, r);
    hide Told, Counted, Locked, Waiting, Invoked, Fated, Distinct, Owned, Dropped, Destroying;
    NotWaiting(s.intrs, s.interrupts, s.handlers, s.answering, h.fates, h.flagged, i);
    OwnedIntr(s.reqs, s.intrs, h.destroyed, h.made, h.fates, h.flagged, i, Done(r));
    OwnedIntr(Dropped(s.reqs, r), s.intrs, h.destroyed + Destroying(s.reqs, r), h.made, h.fates, h.flagged, i, Done(r));
    WaitingSame(Dropped(s.reqs, r), s.list, s.intrs, s.interrupts, Dropped(s.reqs, r), s.list, s.intrs - {i});
    FatedReleased(s.intrs, s.interrupts, s.handlers, s.answering, h.fates, h.flagged, i);
    FatedStep(s.intrs, s.interrupts, s.handlers, s.answering, h.fates, h.flagged, i, Called(r));
    DroppedSame(s.reqs, r);
    ToldSame(s.reqs, s.intrs, h, Dropped(s.reqs, r), s.intrs - {i}, h);
    ToldDone(Dropped(s.reqs, r), s.intrs - {i}, h, i, r, h.destroyed + Destroying(s.reqs, r) + {i});
  }

  /** `fuse_free_req` on a listed request */
  lemma Frees(s: Session, h: History, k: nat)
    requires Good(s, h) && k < |s.list| && s.list[k] !in s.registering
    ensures var r := s.list[k];
      r in s.reqs && s.reqs[r].ctr > 0 && r !in h.destroyed &&
        (s.reqs[r].ctr == 1 ==> forall g | g in s.handlers :: s.handlers[g].req != r)
    ensures var r, list' := s.list[k], s.list[..k] + s.list[k + 1..];
      var last := s.reqs[r].ctr == 1;
      Good(s.(reqs := if last then s.reqs - {r} else s.reqs[r := s.reqs[r].(ctr := s.reqs[r].ctr - 1, func := None)],
              list := list'),
           h.(destroyed := if last then h.destroyed + {r} else h.destroyed))
  {
    hide Told, Counted, Locked, Waiting, Invoked, Fated, Distinct, Owned;
    var r, list' := s.list[k], s.list[..k] + s.list[k + 1..];
    CountedFreed(s.reqs, s.list, s.handlers, k);
    ListsIn(s.reqs, s.list, s.handlers);
    OwnedReq(s.reqs, s.intrs, h.destroyed, h.made, h.fates, h.flagged, r,
             s.reqs[r].(ctr := s.reqs[r].ctr - 1, func := None));
    OthersStay(s.list, k);
    assert s.list[k] in s.list;
    var reqs' := if s.reqs[r].ctr == 1 then s.reqs - {r}
      else s.reqs[r := s.reqs[r].(ctr := s.reqs[r].ctr - 1, func := None)];
    LockedFreed(s.reqs, s.list, s.handlers, s.registering, r, list', reqs');
    WaitingSame(s.reqs, s.list, s.intrs, s.interrupts, reqs', list', s.intrs);
    InvokedSame(s.reqs, s.list, s.handlers, s.registering, h.calls, reqs', list', s.handlers);
    ToldReq(s.reqs, s.intrs, h, r, s.reqs[r].(ctr := s.reqs[r].ctr - 1, func := None),
            if s.reqs[r].ctr == 1 then h.destroyed + {r} else h.destroyed, h.flagged, h.calls);
  }

  /** The first half of `fuse_req_interrupt_func`: the callback is set. */
  lemma Registers(s: Session, h: History, r: nat, func: Option<nat>)
    requires Good(s, h) && r in s.list
    ensures r in s.reqs
    ensures (s.reqs[r].lock == None ==> forall i | i in s.handlers && s.handlers[i].Marked? :: s.handlers[i].req != r)
    ensures s.reqs[r].lock == None ==>
      Good(s.(reqs := s.reqs[r := s.reqs[r].(lock := Some(Registrar), func := func)],
              registering := s.registering[r := func]), h)
  {
    hide Told, Counted, Locked, Waiting, Invoked, Fated, Distinct, Owned;
    ListsIn(s.reqs, s.list, s.handlers);
    if s.reqs[r].lock == None {
      var reqs' := s.reqs[r := s.reqs[r].(lock := Some(Registrar), func := func)];
      OwnedReq(s.reqs, s.intrs, h.destroyed, h.made, h.fates, h.flagged, r, reqs'[r]);
      CountedReq(s.reqs, s.list, s.handlers, r, reqs'[r]);
      LockedRegister(s.reqs, s.list, s.handlers, s.registering, r, func);
      WaitingSame(s.reqs, s.list, s.intrs, s.interrupts, reqs', s.list, s.intrs);
      InvokedRegister(s.reqs, s.list, s.handlers, s.registering, h.calls, r, func);
      ToldReq(s.reqs, s.intrs, h, r, reqs'[r], h.destroyed, h.flagged, h.calls);
    }
  }

  /** The second half: the callback is run if the request is interrupted already. */
  lemma Registered(s: Session, h: History, r: nat)
    requires Good(s, h) && r in s.registering
    ensures r in s.reqs && s.reqs[r].func == s.registering[r]
    ensures Good(s.(reqs := s.reqs[r := s.reqs[r].(lock := None)], registering := s.registering - {r}),
                 h.(calls := if s.reqs[r].interrupted &&
                    s.reqs[r].func.Some? then h.calls + {(r, s.reqs[r].func.value)} else h.calls))
  {
    hide Told, Counted, Locked, Waiting, Invoked, Fated, Owned, Distinct;
    RegisteringFunc(s.reqs, s.list, s.handlers, s.registering, r);
    LockedRegistered(s.reqs, s.list, s.handlers, s.registering, r);
    var reqs' := s.reqs[r := s.reqs[r].(lock := None)];
    OwnedReq(s.reqs, s.intrs, h.destroyed, h.made, h.fates, h.flagged, r, reqs'[r]);
    CountedReq(s.reqs, s.list, s.handlers, r, reqs'[r]);
    WaitingSame(s.reqs, s.list, s.intrs, s.interrupts, reqs', s.list, s.intrs);
    InvokedRegistered(s.reqs, s.list, s.handlers, s.registering, h.calls, r);
    ToldReq(s.reqs, s.intrs, h, r, reqs'[r], h.destroyed, h.flagged,
            if s.reqs[r].interrupted && s.reqs[r].func.Some? then h.calls + {(r, s.reqs[r].func.value)} else h.calls);
  }

  lemma RegisteringFunc(reqs: Reqs, list: seq<nat>, handlers: Handlers, registering: Registering, r: nat)
    requires Locked(reqs, list, handlers, registering) && r in registering
    ensures r in reqs && reqs[r].func == registering[r]
  {
  }

  /** In a state without running handlers and registrations, every interrupted request with a
      callback has had it called. */
  lemma CallbacksRun(s: Session, h: History, r: nat)
    requires Good(s, h) && r in s.list && r in s.reqs && s.reqs[r].lock == None
    requires s.reqs[r].interrupted && s.reqs[r].func.Some?
    ensures (r, s.reqs[r].func.value) in h.calls
  {
  }

  /** The fate of an interrupt tells where it is. Once it is gone it has marked a request with its id,
      or was a duplicate of an earlier one with its id, or was handed out to be sent back. */
  lemma EveryInterruptEnds(s: Session, h: History, i: nat)
    requires Good(s, h) && i in h.fates
    ensures i in s.intrs <==> i in s.interrupts || i in s.handlers || i in s.answering
    ensures i in s.interrupts ==> i !in s.handlers && i !in s.answering
    ensures i in h.targets && (i in s.intrs ==> s.intrs[i] == h.targets[i])
    ensures i in s.interrupts ==> forall r | r in s.list && r in s.reqs :: s.reqs[r].unique != h.targets[i]
    ensures i !in s.intrs ==> match h.fates[i]
      case Done(r) => r in h.flagged && r in h.uniques && h.uniques[r] == h.targets[i]
      case Duplicate =>
        i in h.rivals && h.rivals[i] < i && h.rivals[i] in h.targets && h.targets[h.rivals[i]] == h.targets[i]
      case Again => i in h.handed
      case _ => false
    ensures i in h.handed ==> h.fates[i] == Again
    ensures forall r | r in s.reqs :: r in h.uniques && h.uniques[r] == s.reqs[r].unique
  {
    assert Reasoned(h, i);
    hide Counted, Locked, Invoked, Owned;
    match h.fates[i]
    case Pending =>
    case Handled(q) =>
    case Done(q) =>
    case Duplicate =>
    case Again =>
  }

  lemma GoodLists(s: Session, h: History)
    requires Good(s, h)
    ensures (forall r | r in s.list :: r in s.reqs) && forall i | i in s.interrupts :: i in s.intrs
  {
  }

  lemma NoRequests()
    ensures Good(Session(map[], [], map[], [], map[], map[], {}), NOTHING)
  {
  }

  // ---------- struct fuse_session ----------

  class FuseSession {
    var reqs: Reqs                            // the ordinary requests that are allocated
    var list: seq<nat>                        // se->list
    var intrs: map<nat, nat>                  // the allocated interrupt requests and their targets
    var interrupts: seq<nat>                  // se->interrupts
    var handlers: Handlers                    // the threads in `find_interrupted`
    var registering: Registering    // the threads in `fuse_req_interrupt_func`
    var answering: set<nat>                   // the threads that answer EAGAIN
    ghost var h: History

    ghost function Now(): Session
      reads this`reqs, this`list, this`intrs, this`interrupts, this`handlers, this`registering, this`answering
    {
      Session(reqs, list, intrs, interrupts, handlers, registering, answering)
    }

    ghost predicate Valid()
      reads this
    {
      Good(Now(), h)
    }

    constructor ()
      ensures Valid() && h == NOTHING
    {
      reqs, list, intrs, interrupts := map[], [], map[], [];
      handlers, registering, answering, h := map[], map[], {}, NOTHING;
      new;
      NoRequests();
    }

    /** The walk of `check_interrupt` along the waiting interrupts */
    method FindWaiting(unique: nat) returns (hit: Option<nat>)
      requires Valid()
      ensures hit.Some? ==>
        hit.value < |interrupts| && interrupts[hit.value] in intrs && intrs[interrupts[hit.value]] == unique
      ensures hit.None? ==> forall i | i in interrupts && i in intrs :: intrs[i] != unique
    {
      hide Good;
      GoodLists(Now(), h);
      for k := 0 to |interrupts|
        invariant forall j | 0 <= j < k :: intrs[interrupts[j]] != unique
      {
        if intrs[interrupts[k]] == unique {
          return Some(k);
        }
      }
      return None;
    }

    /** `check_interrupt`: the interrupt that waits for the request is consumed; otherwise the first
        one that waits is to be answered EAGAIN. */
    method CheckInterrupt(unique: nat) returns (interrupted: bool, intr: Option<nat>, ghost hit: Option<nat>)
      requires Valid()
      modifies this`intrs, this`interrupts, this`answering
      ensures interrupted == hit.Some?
      ensures var s := old(Now());
        if hit.Some? then hit.value < |s.interrupts| && s.interrupts[hit.value] in s.intrs &&
                          s.intrs[s.interrupts[hit.value]] == unique
        else forall i | i in s.interrupts && i in s.intrs :: s.intrs[i] != unique
      ensures var s := old(Now());
        intr == if hit.None? && s.interrupts != [] then Some(s.interrupts[0]) else None
      ensures hit.Some? ==> var s, k := old(Now()), hit.value;
        Now() == s.(intrs := s.intrs - {s.interrupts[k]}, interrupts := s.interrupts[..k] + s.interrupts[k + 1..])
      ensures intr.Some? ==> var s := old(Now());
        Now() == s.(interrupts := s.interrupts[1..], answering := s.answering + {intr.value})
      ensures hit.None? && intr.None? ==> Now() == old(Now())
    {
      hide Good;
      var found := FindWaiting(unique);
      hit := found;
      if found.Some? {
        var k := found.value;
        intrs := intrs - {interrupts[k]};
        interrupts := interrupts[..k] + interrupts[k + 1..];
        return true, None, hit;
      }
      if interrupts == [] {
        return false, None, hit;
      }
      intr := Some(interrupts[0]);
      answering := answering + {interrupts[0]};
      interrupts := interrupts[1..];
      return false, intr, hit;
    }

    /** `list_add_req` */
    method ListAddReq(req: Req, r: nat)
      modifies this`reqs, this`list
      ensures var s := old(Now()); Now() == s.(reqs := s.reqs[r := req], list := s.list + [r])
    {
      reqs := reqs[r := req];
      list := list + [r];
    }

    /** A request enters the list: `check_interrupt` and `list_add_req` under one lock. The result is
        an interrupt to be answered EAGAIN. */
    method Arrive(unique: nat, r: nat) returns (intr: Option<nat>, ghost hit: Option<nat>)
      requires Valid() && r == h.made
      modifies this`reqs, this`list, this`intrs, this`interrupts, this`answering, this`h
      ensures Valid() && r !in old(Now()).reqs && r in Now().reqs && (Now().reqs[r].interrupted <==> hit.Some?)
      ensures var s := old(Now());
        && (hit.Some? <==> exists i :: i in s.interrupts && i in s.intrs && s.intrs[i] == unique)
        && (hit.Some? ==> hit.value < |s.interrupts| && s.interrupts[hit.value] in s.intrs &&
                          s.intrs[s.interrupts[hit.value]] == unique)
        && (forall i | i in s.interrupts && i in s.intrs && s.intrs[i] == unique ::
              i in h.fates && h.fates[i] == Done(r))
        && intr == if hit.None? && s.interrupts != [] then Some(s.interrupts[0]) else None
      ensures hit.Some? ==> var s, g, k := old(Now()), old(h), hit.value; var i := s.interrupts[k];
        && Now() == s.(reqs := s.reqs[r := Req(unique, 1, true, None, None)], list := s.list + [r],
                       intrs := s.intrs - {i}, interrupts := s.interrupts[..k] + s.interrupts[k + 1..])
        && h == g.(made := r + 1, uniques := g.uniques[r := unique], destroyed := g.destroyed + {i},
                   fates := g.fates[i := Done(r)], flagged := g.flagged + {r})
      ensures intr.Some? ==> var s, g, i := old(Now()), old(h), intr.value;
        && Now() == s.(reqs := s.reqs[r := Req(unique, 1, false, None, None)], list := s.list + [r],
                       interrupts := s.interrupts[1..], answering := s.answering + {i})
        && h == g.(made := r + 1, uniques := g.uniques[r := unique], fates := g.fates[i := Again],
                   handed := g.handed + {i})
      ensures hit.None? && intr.None? ==> var s, g := old(Now()), old(h);
        && Now() == s.(reqs := s.reqs[r := Req(unique, 1, false, None, None)], list := s.list + [r])
        && h == g.(made := r + 1, uniques := g.uniques[r := unique])
    {
      hide Good, FuseSession.Now;
      ghost var s := Now();
      var interrupted;
      interrupted, intr, hit := CheckInterrupt(unique);
      ListAddReq(Req(unique, 1, interrupted, None, None), r);
      ghost var s', h' := Arrives(s, h, unique, hit);
      h := h';
      assert Now() == s';
    }

    /** `fuse_reply_err(intr, EAGAIN)` frees the interrupt. */
    method Answer(i: nat)
      requires Valid() && i in answering
      modifies this`intrs, this`answering, this`h
      ensures Valid() && answering == old(answering) - {i} && intrs == old(intrs) - {i} && i !in old(h).destroyed
      ensures h == old(h).(destroyed := old(h).destroyed + {i})
    {
      hide Good;
      Answers(Now(), h, i);
      intrs := intrs - {i};
      answering := answering - {i};
      h := h.(destroyed := h.destroyed + {i});
    }

    method FindListed(unique: nat) returns (k: nat)
      requires forall r | r in list :: r in reqs
      ensures k <= |list| && (k < |list| ==> reqs[list[k]].unique == unique)
      ensures k == |list| ==> forall r | r in list :: reqs[r].unique != unique
    {
      k := 0;
      while k < |list| && reqs[list[k]].unique != unique
        invariant k <= |list| && forall j | 0 <= j < k :: reqs[list[j]].unique != unique
      {
        k := k + 1;
      }
    }

    /** `find_interrupted` has found the request, and takes a reference to it. */
    method Hold(unique: nat, i: nat, r: nat)
      requires Valid() && i == h.made && r in list && r in reqs && reqs[r].unique == unique
      modifies this`reqs, this`intrs, this`handlers, this`h
      ensures Valid() && h == old(h).(made := i + 1, fates := old(h).fates[i := Handled(r)],
                                      targets := old(h).targets[i := unique])
      ensures intrs == old(intrs)[i := unique] && handlers == old(handlers)[i := Found(r)]
      ensures reqs == old(reqs)[r := old(reqs)[r].(ctr := old(reqs)[r].ctr + 1)]
    {
      hide Good;
      Finds(Now(), h, unique, r);
      intrs := intrs[i := unique];
      reqs := reqs[r := reqs[r].(ctr := reqs[r].ctr + 1)];
      handlers := handlers[i := Found(r)];
      h := h.(made := h.made + 1, fates := h.fates[i := Handled(r)], targets := h.targets[i := unique]);
    }

    /** `do_interrupt` when no request is found: the interrupt waits, unless another one waits for the
        same request. */
    method Park(unique: nat, i: nat)
      requires Valid() && i == h.made && forall r | r in list && r in reqs :: reqs[r].unique != unique
      modifies this`intrs, this`interrupts, this`h
      ensures Valid() && i in h.fates && (h.fates[i].Pending? || h.fates[i].Duplicate?)
      ensures h == old(h).(made := i + 1, fates := old(h).fates[i := h.fates[i]],
                           targets := old(h).targets[i := unique], destroyed := h.destroyed, rivals := h.rivals)
      ensures h.fates[i].Pending? ==>
        && interrupts == old(interrupts) + [i] && intrs == old(intrs)[i := unique]
        && h.destroyed == old(h).destroyed && h.rivals == old(h).rivals
      ensures h.fates[i].Duplicate? ==>
        && i in h.rivals && h.rivals == old(h).rivals[i := h.rivals[i]]
        && h.rivals[i] in old(interrupts) && h.rivals[i] in old(intrs) && old(intrs)[h.rivals[i]] == unique
        && interrupts == old(interrupts) && intrs == old(intrs) && h.destroyed == old(h).destroyed + {i}
    {
      hide Good;
      ghost var s := Now();
      var waiting := FindWaiting(unique);
      if waiting.Some? {
        FindsRival(s, h, unique, interrupts[waiting.value]);
        h := h.(made := h.made + 1, destroyed := h.destroyed + {i}, fates := h.fates[i := Duplicate],
                targets := h.targets[i := unique], rivals := h.rivals[i := interrupts[waiting.value]]);
      } else {
        FindsNone(s, h, unique);
        intrs := intrs[i := unique];
        interrupts := interrupts + [i];
        h := h.(made := h.made + 1, fates := h.fates[i := Pending], targets := h.targets[i := unique]);
      }
    }

    /** `do_interrupt` up to where `find_interrupted` lets go of the session lock, or to its end if no
        request is found. */
    method Interrupt(unique: nat, i: nat)
      requires Valid() && i == h.made
      modifies this`reqs, this`intrs, this`interrupts, this`handlers, this`h
      ensures Valid() && i in h.fates
      ensures h == old(h).(made := i + 1, fates := old(h).fates[i := h.fates[i]],
                           targets := old(h).targets[i := unique], destroyed := h.destroyed, rivals := h.rivals)
      ensures !h.fates[i].Duplicate? ==> h.rivals == old(h).rivals
      ensures h.destroyed == if h.fates[i] == Duplicate then old(h).destroyed + {i} else old(h).destroyed
      ensures intrs == if h.fates[i] == Duplicate then old(intrs) else old(intrs)[i := unique]
      ensures match h.fates[i]
              case Handled(r) =>
                && r in list && r in old(reqs) && old(reqs)[r].unique == unique
                && reqs == old(reqs)[r := old(reqs)[r].(ctr := old(reqs)[r].ctr + 1)]
                && handlers == old(handlers)[i := Found(r)] && interrupts == old(interrupts)
              case Pending =>
                && interrupts == old(interrupts) + [i] && i in intrs && intrs[i] == unique
                && reqs == old(reqs) && handlers == old(handlers)
              case Duplicate =>
                && i in h.rivals && h.rivals == old(h).rivals[i := h.rivals[i]]
                && h.rivals[i] in old(interrupts) && h.rivals[i] in old(intrs) && old(intrs)[h.rivals[i]] == unique
                && reqs == old(reqs) && handlers == old(handlers) && interrupts == old(interrupts)
              case _ => false
    {
      hide Good;
      ghost var s := Now();
      GoodLists(s, h);
      var k := FindListed(unique);
      if k < |list| {
        Hold(unique, i, list[k]);
      } else {
        Park(unique, i);
      }
    }

    /** Both locks are taken and the request is marked, while its own lock is free. */
    method Mark(i: nat)
      requires Valid() && i in handlers && handlers[i].Found? && handlers[i].req in reqs
      requires reqs[handlers[i].req].lock == None
      modifies this`reqs, this`handlers, this`h
      ensures Valid() && h == old(h).(flagged := old(h).flagged + {old(handlers)[i].req})
      ensures var r := old(handlers)[i].req;
        && handlers == old(handlers)[i := Marked(r, old(reqs)[r].func)]
        && reqs == old(reqs)[r := old(reqs)[r].(interrupted := true, lock := Some(Handling(i)))]
    {
      hide Good;
      var r := handlers[i].req;
      Marks(Now(), h, i);
      handlers := handlers[i := Marked(r, reqs[r].func)];
      reqs := reqs[r := reqs[r].(interrupted := true, lock := Some(Handling(i)))];
      h := h.(flagged := h.flagged + {r});
    }

    /** The callback, and the request's lock is released. */
    method Call(i: nat)
      requires Valid() && i in handlers && handlers[i].Marked?
      modifies this`reqs, this`handlers, this`h
      ensures Valid() && old(handlers)[i].req in old(reqs)
      ensures handlers == old(handlers)[i := Called(old(handlers)[i].req)]
      ensures var r, func := old(handlers)[i].req, old(handlers)[i].func;
        && reqs == old(reqs)[r := old(reqs)[r].(lock := None)]
        && h == old(h).(calls := if func.Some? then old(h).calls + {(r, func.value)} else old(h).calls)
    {
      hide Good;
      var r, func := handlers[i].req, handlers[i].func;
      Calls(Now(), h, i, r, func);
      if func.Some? {
        h := h.(calls := h.calls + {(r, func.value)});
      }
      handlers := handlers[i := Called(r)];
      reqs := reqs[r := reqs[r].(lock := None)];
    }

    /** The end of `do_interrupt`: the request is released, and destroyed if it was replied to in the
        meantime; the interrupt is destroyed. */
    method Release(i: nat)
      requires Valid() && i in handlers && handlers[i].Called?
      modifies this`reqs, this`intrs, this`handlers, this`h
      ensures Valid() && handlers == old(handlers) - {i} && intrs == old(intrs) - {i} && i !in old(h).destroyed
      ensures var r := old(handlers)[i].req;
        && r in old(reqs) && r !in old(h).destroyed
        && reqs == (if old(reqs)[r].ctr == 1 then old(reqs) - {r}
                    else old(reqs)[r := old(reqs)[r].(ctr := old(reqs)[r].ctr - 1)])
        && h == old(h).(destroyed := old(h).destroyed + (if old(reqs)[r].ctr == 1 then {r, i} else {i}),
                        fates := old(h).fates[i := Done(r)])
        && (r !in reqs ==> r !in list && forall g | g in handlers :: handlers[g].req != r)
    {
      hide Good;
      var r := handlers[i].req;
      Releases(Now(), h, i, r);
      h := h.(destroyed := h.destroyed + Destroying(reqs, r) + {i}, fates := h.fates[i := Done(r)]);
      assert h.destroyed == old(h).destroyed + if reqs[r].ctr == 1 then {r, i} else {i};
      var ctr := reqs[r].ctr - 1;
      reqs := if ctr == 0 then reqs - {r} else reqs[r := reqs[r].(ctr := ctr)];
      intrs := intrs - {i};
      handlers := handlers - {i};
    }

    /** `fuse_free_req`, after the reply; the request is destroyed unless a handler still holds it. */
    method Free(k: nat)
      requires Valid() && k < |list| && list[k] !in registering
      modifies this`reqs, this`list, this`h
      ensures Valid() && list == old(list)[..k] + old(list)[k + 1..]
      ensures var r := old(list)[k];
        && r in old(reqs) && r !in old(h).destroyed
        && h == old(h).(destroyed := if old(reqs)[r].ctr == 1 then old(h).destroyed + {r} else old(h).destroyed)
        && (r !in reqs ==> forall g | g in handlers :: handlers[g].req != r)
        && reqs == (if old(reqs)[r].ctr == 1 then old(reqs) - {r}
                    else old(reqs)[r := old(reqs)[r].(ctr := old(reqs)[r].ctr - 1, func := None)])
    {
      hide Good;
      Frees(Now(), h, k);
      var r := list[k];
      if reqs[r].ctr == 1 {
        h := h.(destroyed := h.destroyed + {r});
      }
      list := list[..k] + list[k + 1..];
      var ctr := reqs[r].ctr - 1;
      reqs := if ctr == 0 then reqs - {r} else reqs[r := reqs[r].(ctr := ctr, func := None)];
    }

    /** `fuse_req_interrupt_func`: the callback is set under both locks, and no handler is about to
        run the one that it replaces. */
    method Register(r: nat, func: Option<nat>)
      requires Valid() && r in list && r in reqs && reqs[r].lock == None
      modifies this`reqs, this`registering
      ensures Valid() && registering == old(registering)[r := func]
      ensures r in reqs && reqs == old(reqs)[r := old(reqs)[r].(lock := Some(Registrar), func := func)]
      ensures forall i | i in handlers && handlers[i].Marked? :: handlers[i].req != r
    {
      hide Good;
      Registers(Now(), h, r, func);
      reqs := reqs[r := reqs[r].(lock := Some(Registrar), func := func)];
      registering := registering[r := func];
    }

    /** The rest of it: a request that is interrupted already has its callback run now. */
    method FinishRegister(r: nat)
      requires Valid() && r in registering
      modifies this`reqs, this`registering, this`h
      ensures Valid() && r in old(reqs) && registering == old(registering) - {r}
      ensures reqs == old(reqs)[r := old(reqs)[r].(lock := None)]
      ensures h == old(h).(calls :=
        if old(reqs)[r].interrupted && old(registering)[r].Some? then old(h).calls + {(r, old(registering)[r].value)}
        else old(h).calls)
    {
      hide Good;
      Registered(Now(), h, r);
      if reqs[r].interrupted && registering[r].Some? {
        h := h.(calls := h.calls + {(r, registering[r].value)});
      }
      reqs := reqs[r := reqs[r].(lock := None)];
      registering := registering - {r};
    }
  }
}
