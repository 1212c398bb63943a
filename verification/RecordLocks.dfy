/** POSIX record locks of one inode: the list kept by `locks_insert` and searched by
    `locks_conflict` (lib/fuse.c). The abstract value of a list is the lock type that each
    owner has on each byte; the list is one way of writing that function down. */
module RecordLocks {

  /** The C type `off_t`. Dafny proves that no operation below leaves its range. */
  newtype Offset = x: int | -0x8000_0000_0000_0000 <= x <= 0x7fff_ffff_ffff_ffff

  const OFFSET_MAX: Offset := 0x7fff_ffff_ffff_ffff

  datatype LockType = RdLck | WrLck | UnLck

  datatype Lock = Lock(typ: LockType, start: Offset, end: Offset, pid: int, owner: nat)

  datatype Status = Ok | NoLocks

  datatype Search = NotFound | Found(lock: Lock)

  predicate ValidRange(l: Lock) {
    0 <= l.start <= l.end
  }

  predicate Covers(l: Lock, owner: nat, b: Offset) {
    l.owner == owner && l.start <= b <= l.end
  }

  /** What `owner` holds on byte `b`: the meaning of a list. */
  function TypeAt(s: seq<Lock>, owner: nat, b: Offset): LockType {
    if s == [] then UnLck
    else if Covers(s[0], owner, b) then s[0].typ
    else TypeAt(s[1..], owner, b)
  }

  /** Two entries that may stand in this order: of different owners, or disjoint and ascending,
      and not mergeable. */
  predicate Apart(x: Lock, y: Lock) {
    x.owner == y.owner ==> x.end < y.start && (x.typ == y.typ ==> x.end < y.start - 1)
  }

  ghost predicate Before(a: seq<Lock>, b: seq<Lock>) {
    forall x, y | x in a && y in b :: ValidRange(y) && Apart(x, y)
  }

  /** Each owner's entries are sorted, disjoint and maximally merged, and none is an unlock. */
  ghost predicate Canonical(s: seq<Lock>) {
    s == [] ||
    (ValidRange(s[0]) && s[0].typ != UnLck && Canonical(s[1..]) && Before([s[0]], s[1..]))
  }

  // ---------- lists and concatenation ----------

  lemma {:induction false} TypeAtCat(a: seq<Lock>, b: seq<Lock>, owner: nat, x: Offset)
    requires forall l | l in a :: l.typ != UnLck
    ensures TypeAt(a + b, owner, x) ==
            if TypeAt(a, owner, x) != UnLck then TypeAt(a, owner, x) else TypeAt(b, owner, x)
  {
    if a == [] {
      assert a + b == b;
    } else {
      assert (a + b)[1..] == a[1..] + b;
      assert forall l | l in a[1..] :: l in a;
      assert a[0] in a;
      TypeAtCat(a[1..], b, owner, x);
    }
  }

  lemma {:induction false} CanonicalCat(a: seq<Lock>, b: seq<Lock>)
    ensures Canonical(a + b) <==> Canonical(a) && Canonical(b) && Before(a, b)
  {
    if a == [] {
      assert a + b == b;
    } else {
      assert (a + b)[1..] == a[1..] + b;
      CanonicalCat(a[1..], b);
      assert forall l :: l in a <==> l == a[0] || l in a[1..];
      assert forall l :: l in a[1..] + b <==> l in a[1..] || l in b;
      assert a[0] in [a[0]];
    }
  }

  lemma {:induction false} CanonicalMember(s: seq<Lock>, l: Lock)
    requires Canonical(s) && l in s
    ensures ValidRange(l) && l.typ != UnLck
  {
    if l != s[0] {
      CanonicalMember(s[1..], l);
    }
  }

  /** A type other than "unlocked" is always witnessed by an entry. */
  lemma {:induction false} TypeAtWitness(s: seq<Lock>, owner: nat, b: Offset) returns (l: Lock)
    requires TypeAt(s, owner, b) != UnLck
    ensures l in s && Covers(l, owner, b) && l.typ == TypeAt(s, owner, b)
  {
    if Covers(s[0], owner, b) {
      l := s[0];
    } else {
      l := TypeAtWitness(s[1..], owner, b);
    }
  }

  /** In a canonical list every entry decides the type of all its bytes. */
  lemma {:induction false} TypeAtEntry(s: seq<Lock>, l: Lock, b: Offset)
    requires Canonical(s) && l in s && l.start <= b <= l.end
    ensures TypeAt(s, l.owner, b) == l.typ
  {
    if l != s[0] {
      assert l in s[1..];
      assert s[0] in [s[0]];
      TypeAtEntry(s[1..], l, b);
    }
  }

  // ---------- the contract of locks_insert ----------

  /** `lock` forbids `held` to stay beside it: the test of `locks_conflict`. */
  predicate Excludes(held: Lock, lock: Lock) {
    held.owner != lock.owner && lock.start <= held.end && held.start <= lock.end &&
    (held.typ == WrLck || lock.typ == WrLck)
  }

  predicate NeedsMemory(l: Lock) {
    l.typ != UnLck || l.start != 0 || l.end != OFFSET_MAX
  }

  /** The per-byte map that IEEE Std 1003.1-2017 asks for: the request on its own bytes, the old
      type everywhere else. */
  function TypeAfter(old_: seq<Lock>, request: Lock, owner: nat, b: Offset): LockType {
    if Covers(request, owner, b) then request.typ else TypeAt(old_, owner, b)
  }

  /** The contract of a successful `locks_insert`. */
  ghost predicate Grants(before: seq<Lock>, request: Lock, after: seq<Lock>) {
    ValidRange(request) && Canonical(after) &&
    forall o, b :: TypeAt(after, o, b) == TypeAfter(before, request, o, b)
  }

  // ---------- the loop of locks_insert ----------

  /** Outside the bytes of `lock` the list still means what it meant. */
  ghost predicate Tracks(old_: seq<Lock>, now: seq<Lock>, lock: Lock) {
    forall o, b | !Covers(lock, o, b) :: TypeAt(now, o, b) == TypeAt(old_, o, b)
  }

  /** `lock` is the request, widened only over bytes that already had its type. */
  ghost predicate Widened(old_: seq<Lock>, request: Lock, lock: Lock) {
    ValidRange(lock) &&
    lock == request.(start := lock.start, end := lock.end) &&
    lock.start <= request.start && request.end <= lock.end &&
    forall b | Covers(lock, lock.owner, b) && !Covers(request, lock.owner, b) ::
      TypeAt(old_, lock.owner, b) == lock.typ
  }

  /** All of `done` belongs before `lock`, all of `rest` after it. */
  ghost predicate Passed(done: seq<Lock>, lock: Lock) {
    forall x | x in done :: Apart(x, lock)
  }

  ghost predicate Follows(rest: seq<Lock>, lock: Lock) {
    forall y | y in rest :: Apart(lock, y)
  }

  /** `mid` is what stays of `l`: pieces of it that keep every byte outside `lock`. */
  ghost predicate Remains(l: Lock, mid: seq<Lock>, lock: Lock) {
    Canonical(mid) &&
    (forall m | m in mid :: m.owner == l.owner && m.typ == l.typ && l.start <= m.start && m.end <= l.end) &&
    forall o, b | !Covers(lock, o, b) :: TypeAt(mid, o, b) == TypeAt([l], o, b)
  }

  /** Replacing one entry by what remains of it keeps the list canonical and its meaning
      outside `lock`: the one step that trims, splits and deletions share. */
  lemma Splice(old_: seq<Lock>, done: seq<Lock>, l: Lock, mid: seq<Lock>, tail: seq<Lock>, lock: Lock)
    requires Canonical(done + [l] + tail) && Tracks(old_, done + [l] + tail, lock)
    requires Remains(l, mid, lock)
    ensures Canonical(done + mid + tail) && Tracks(old_, done + mid + tail, lock)
  {
    CanonicalCat(done + [l], tail);
    CanonicalCat(done, [l]);
    assert l in [l] && l in done + [l];
    assert Before(mid, tail) by {
      assert forall x, y | x in mid && y in tail :: Apart(l, y);
    }
    assert Before(done + mid, tail) by {
      assert forall x | x in done + mid :: x in done || x in mid;
      assert forall x | x in done :: x in done + [l];
    }
    assert Before(done, mid) by {
      forall x, m | x in done && m in mid ensures ValidRange(m) && Apart(x, m) {
        assert Apart(x, l);
        CanonicalMember(mid, m);
      }
    }
    CanonicalCat(done, mid);
    CanonicalCat(done + mid, tail);
    forall o, b | !Covers(lock, o, b) ensures TypeAt(done + mid + tail, o, b) == TypeAt(old_, o, b) {
      MeaningOfThree(done, [l], tail, o, b);
      MeaningOfThree(done, mid, tail, o, b);
    }
  }

  lemma MeaningOfThree(a: seq<Lock>, m: seq<Lock>, c: seq<Lock>, o: nat, b: Offset)
    requires Canonical(a + m + c)
    ensures TypeAt(a + m + c, o, b) ==
            if TypeAt(a, o, b) != UnLck then TypeAt(a, o, b)
            else if TypeAt(m, o, b) != UnLck then TypeAt(m, o, b)
            else TypeAt(c, o, b)
  {
    CanonicalCat(a + m, c);
    CanonicalCat(a, m);
    forall l | l in a + m ensures l.typ != UnLck {
      CanonicalMember(a + m, l);
    }
    assert forall l | l in a :: l in a + m;
    TypeAtCat(a + m, c, o, b);
    TypeAtCat(a, m, o, b);
  }

  lemma CanonicalOne(l: Lock)
    requires ValidRange(l) && l.typ != UnLck
    ensures Canonical([l])
  {
    var s := [l];
    assert s[0] == l && s[1..] == [];
    assert Canonical(s[1..]) && Before([s[0]], s[1..]);
  }

  lemma NothingRemains(l: Lock, lock: Lock)
    requires ValidRange(l) && lock.owner == l.owner && lock.start <= l.start && l.end <= lock.end
    ensures Remains(l, [], lock)
  {
  }

  lemma TrimRemains(l: Lock, piece: Lock, lock: Lock)
    requires ValidRange(l) && ValidRange(lock) && l.typ != UnLck && lock.owner == l.owner
    requires || (l.start < lock.start <= l.end <= lock.end && piece == l.(end := lock.start - 1))
             || (lock.start <= l.start <= lock.end < l.end && piece == l.(start := lock.end + 1))
    ensures Remains(l, [piece], lock)
  {
    CanonicalOne(piece);
  }

  lemma SplitRemains(l: Lock, left: Lock, right: Lock, lock: Lock)
    requires ValidRange(l) && l.typ != UnLck && lock.owner == l.owner
    requires l.start < lock.start <= lock.end < l.end
    requires left == l.(end := lock.start - 1) && right == l.(start := lock.end + 1)
    ensures Remains(l, [left, right], lock)
  {
    CanonicalOne(left);
    CanonicalOne(right);
    CanonicalCat([left], [right]);
    assert [left] + [right] == [left, right] && [left, right][1..] == [right];
    forall o, b | !Covers(lock, o, b) ensures TypeAt([left, right], o, b) == TypeAt([l], o, b) {
      assert TypeAt([right], o, b) == if Covers(right, o, b) then right.typ else UnLck;
    }
  }

  /** The loop invariant: the cursor `i` stands between entries that belong before `lock` and
      entries not looked at. */
  ghost predicate Scanning(old_: seq<Lock>, request: Lock, s: seq<Lock>, i: nat, lock: Lock) {
    i <= |s| && Canonical(s) && Tracks(old_, s, lock) && Widened(old_, request, lock) && Passed(s[..i], lock)
  }

  lemma ScanningStarts(old_: seq<Lock>, request: Lock)
    requires Canonical(old_) && ValidRange(request)
    ensures Scanning(old_, request, old_, 0, request)
  {
  }

  lemma ScanningMember(old_: seq<Lock>, request: Lock, s: seq<Lock>, i: nat, lock: Lock)
    requires Scanning(old_, request, s, i, lock) && i < |s|
    ensures ValidRange(s[i]) && s[i].typ != UnLck && ValidRange(lock)
  {
    CanonicalMember(s, s[i]);
  }

  lemma Skip(old_: seq<Lock>, request: Lock, s: seq<Lock>, i: nat, lock: Lock)
    requires Scanning(old_, request, s, i, lock) && i < |s| && Apart(s[i], lock)
    ensures Scanning(old_, request, s, i + 1, lock)
  {
    assert s[..i + 1] == s[..i] + [s[i]];
  }

  lemma Reshape(old_: seq<Lock>, request: Lock, s: seq<Lock>, i: nat, mid: seq<Lock>, lock: Lock)
    requires Scanning(old_, request, s, i, lock) && i < |s| && Remains(s[i], mid, lock)
    ensures Scanning(old_, request, s[..i] + mid + s[i + 1..], i, lock)
  {
    assert s == s[..i] + [s[i]] + s[i + 1..];
    assert (s[..i] + mid + s[i + 1..])[..i] == s[..i];
    Splice(old_, s[..i], s[i], mid, s[i + 1..], lock);
  }

  /** Absorbing an entry of the same type widens the lock over bytes that had this type. */
  lemma Absorb(old_: seq<Lock>, request: Lock, s: seq<Lock>, i: nat, was: Lock, lock: Lock)
    requires Scanning(old_, request, s, i, was) && i < |s| && ValidRange(s[i])
    requires s[i].owner == was.owner && s[i].typ == was.typ
    requires !(s[i].end < was.start - 1) && !(was.end < s[i].start - 1)
    requires lock == was.(start := if s[i].start < was.start then s[i].start else was.start,
                          end := if was.end < s[i].end then s[i].end else was.end)
    ensures Scanning(old_, request, s[..i] + s[i + 1..], i, lock)
  {
    var l := s[i];
    forall b | Covers(lock, lock.owner, b) && !Covers(request, lock.owner, b)
      ensures TypeAt(old_, lock.owner, b) == lock.typ
    {
      if !Covers(was, lock.owner, b) {
        TypeAtEntry(s, l, b);
      }
    }
    forall x | x in s[..i] ensures Apart(x, lock) {
      assert s[..i] + s[i..] == s;
      CanonicalCat(s[..i], s[i..]);
      assert s[i..][0] == l;
      assert Apart(x, l);
    }
    Reshape(old_, request, s, i, [], lock);
    assert s[..i] + [] + s[i + 1..] == s[..i] + s[i + 1..];
  }

  lemma Stop(old_: seq<Lock>, request: Lock, s: seq<Lock>, i: nat, lock: Lock)
    requires Scanning(old_, request, s, i, lock) && i < |s| && s[i].owner == lock.owner && Apart(lock, s[i])
    ensures Follows(s[i..], lock)
  {
    assert s == s[..i] + s[i..];
    CanonicalCat(s[..i], s[i..]);
    CanonicalMember(s, s[i]);
    assert s[i..][1..] == s[i + 1..];
    assert Before([s[i]], s[i + 1..]);
    hide Canonical, Tracks, Widened, TypeAt, Passed;
    assert s[i] in [s[i]];
    assert forall y | y in s[i..] :: y == s[i] || y in s[i + 1..];
  }

  /** Where the loop stops, putting the lock at the cursor completes the request. */
  lemma Finish(old_: seq<Lock>, request: Lock, s: seq<Lock>, i: nat, lock: Lock)
    requires Scanning(old_, request, s, i, lock) && Follows(s[i..], lock)
    requires ValidRange(request)
    ensures lock.typ != UnLck ==> Grants(old_, request, s[..i] + [lock] + s[i..])
    ensures lock.typ == UnLck ==> Grants(old_, request, s)
  {
    var done, rest := s[..i], s[i..];
    assert s == done + rest;
    assert done + [] + rest == s;
    CanonicalCat(done, rest);
    if lock.typ != UnLck {
      CanonicalOne(lock);
      CanonicalCat(done, [lock]);
      forall y | y in rest ensures ValidRange(y) {
        CanonicalMember(rest, y);
      }
      assert Before(done + [lock], rest);
      CanonicalCat(done + [lock], rest);
    }
    forall o, b
      ensures lock.typ == UnLck ==> TypeAt(s, o, b) == TypeAfter(old_, request, o, b)
      ensures lock.typ != UnLck ==> TypeAt(done + [lock] + rest, o, b) == TypeAfter(old_, request, o, b)
    {
      MeaningOfThree(done, [], rest, o, b);
      if lock.typ != UnLck {
        MeaningOfThree(done, [lock], rest, o, b);
      }
      if Covers(lock, o, b) {
        if TypeAt(done, o, b) != UnLck {
          var x := TypeAtWitness(done, o, b);
        }
        if TypeAt(rest, o, b) != UnLck {
          var y := TypeAtWitness(rest, o, b);
        }
      }
    }
  }

  /** A request inside an entry of its own type changes nothing. */
  lemma Contained(old_: seq<Lock>, now: seq<Lock>, l: Lock, request: Lock, lock: Lock)
    requires Canonical(now) && l in now && Tracks(old_, now, lock) && Widened(old_, request, lock)
    requires l.owner == lock.owner && l.typ == lock.typ && l.start <= lock.start && lock.end <= l.end
    requires ValidRange(request)
    ensures Grants(old_, request, now)
  {
    forall o, b ensures TypeAt(now, o, b) == TypeAfter(old_, request, o, b) {
      if Covers(lock, o, b) {
        TypeAtEntry(now, l, b);
      }
    }
  }

  // ---------- whose lock it is ----------

  /** The entries of all owners but one */
  function Except(s: seq<Lock>, owner: nat): seq<Lock> {
    if s == [] then [] else (if s[0].owner != owner then [s[0]] else []) + Except(s[1..], owner)
  }

  /** `l` is `x` or what was left of it; the process that a get-lock request reports stays. */
  predicate Piece(x: Lock, l: Lock) {
    l == x.(start := l.start, end := l.end) && x.start <= l.start && l.end <= x.end
  }

  predicate IsPiece(before: seq<Lock>, l: Lock) {
    exists x :: x in before && Piece(x, l)
  }

  /** The request as it is stored: with its own process, perhaps over more bytes. */
  predicate Stored(request: Lock, l: Lock) {
    l == request.(start := l.start, end := l.end) && l.start <= request.start && request.end <= l.end
  }

  /** Entries of other owners stay as they are. Those of the owner are pieces of what it had, but for one
      that stands for the request; there is none only if an entry as it was covers the request. */
  ghost predicate Attributed(before: seq<Lock>, request: Lock, after: seq<Lock>) {
    Except(after, request.owner) == Except(before, request.owner) &&
    (forall l | l in after :: IsPiece(before, l) || (Stored(request, l) && request.typ != UnLck)) &&
    (request.typ != UnLck ==>
       exists l :: l in after && (Stored(request, l) || (l in before && Stored(request.(pid := l.pid), l))))
  }

  /** So far there are pieces only, and those of the request's type are whole. */
  ghost predicate Pieces(before: seq<Lock>, request: Lock, s: seq<Lock>) {
    Except(s, request.owner) == Except(before, request.owner) && (forall l | l in s :: IsPiece(before, l)) &&
    forall l | l in s && l.owner == request.owner && l.typ == request.typ :: l in before
  }

  lemma {:induction false} ExceptCat(a: seq<Lock>, b: seq<Lock>, owner: nat)
    ensures Except(a + b, owner) == Except(a, owner) + Except(b, owner)
  {
    if a == [] {
      assert a + b == b;
    } else {
      assert (a + b)[1..] == a[1..] + b;
      ExceptCat(a[1..], b, owner);
    }
  }

  lemma {:induction false} ExceptOwn(s: seq<Lock>, owner: nat)
    requires forall l | l in s :: l.owner == owner
    ensures Except(s, owner) == []
  {
    if s != [] {
      assert s[0] in s && forall l | l in s[1..] :: l in s;
      ExceptOwn(s[1..], owner);
    }
  }

  /** Putting entries of the owner in the place of others changes nothing for the rest. */
  lemma ExceptSplice(a: seq<Lock>, m: seq<Lock>, m': seq<Lock>, b: seq<Lock>, owner: nat)
    requires forall l | l in m || l in m' :: l.owner == owner
    ensures Except(a + m' + b, owner) == Except(a + m + b, owner)
  {
    ExceptOwn(m, owner);
    ExceptOwn(m', owner);
    ExceptCat(a + m, b, owner);
    ExceptCat(a, m, owner);
    ExceptCat(a + m', b, owner);
    ExceptCat(a, m', owner);
  }

  lemma PiecesStart(before: seq<Lock>, request: Lock)
    ensures Pieces(before, request, before)
  {
    forall l | l in before ensures IsPiece(before, l) {
      assert Piece(l, l);
    }
  }

  lemma PiecesReshape(before: seq<Lock>, request: Lock, s: seq<Lock>, i: nat, mid: seq<Lock>)
    requires Pieces(before, request, s) && i < |s| && s[i].owner == request.owner
    requires (forall m | m in mid :: Piece(s[i], m)) && (mid != [] ==> s[i].typ != request.typ)
    ensures Pieces(before, request, s[..i] + mid + s[i + 1..])
  {
    var s' := s[..i] + mid + s[i + 1..];
    assert s == s[..i] + [s[i]] + s[i + 1..];
    ExceptSplice(s[..i], [s[i]], mid, s[i + 1..], request.owner);
    forall l | l in s' ensures l in s || l in mid {
    }
    forall l | l in mid ensures IsPiece(before, l) {
      var x :| x in before && Piece(x, s[i]);
      assert Piece(x, l);
    }
  }

  lemma PiecesContain(before: seq<Lock>, request: Lock, s: seq<Lock>, l: Lock, lock: Lock)
    requires Pieces(before, request, s) && l in s && Stored(request, lock)
    requires l.owner == lock.owner && l.typ == lock.typ && l.start <= lock.start && lock.end <= l.end
    ensures Attributed(before, request, s)
  {
    assert Stored(request.(pid := l.pid), l);
  }

  lemma PiecesEnd(before: seq<Lock>, request: Lock, s: seq<Lock>, i: nat, lock: Lock)
    requires Pieces(before, request, s) && i <= |s| && Stored(request, lock)
    ensures lock.typ == UnLck ==> Attributed(before, request, s)
    ensures lock.typ != UnLck ==> Attributed(before, request, s[..i] + [lock] + s[i..])
  {
    var s' := s[..i] + [lock] + s[i..];
    assert s == s[..i] + [] + s[i..];
    ExceptSplice(s[..i], [], [lock], s[i..], request.owner);
    assert s'[i] == lock;
    forall l | l in s' ensures l in s || l == lock {
    }
  }

  lemma {:induction false} ExceptHas(s: seq<Lock>, owner: nat, l: Lock)
    ensures l in Except(s, owner) <==> l in s && l.owner != owner
  {
    if s != [] {
      ExceptHas(s[1..], owner, l);
    }
  }

  /** What a get-lock request can report: entries of other owners are those that were there, and every
      entry of the owner comes from the process of the request or from one that had it before. */
  lemma ReportedProcesses(before: seq<Lock>, request: Lock, after: seq<Lock>, l: Lock)
    requires Attributed(before, request, after)
    ensures l.owner != request.owner ==> (l in after <==> l in before)
    ensures l in after && l.pid != request.pid ==>
      exists x :: x in before && x == l.(start := x.start, end := x.end) && x.start <= l.start && l.end <= x.end
  {
    ExceptHas(before, request.owner, l);
    ExceptHas(after, request.owner, l);
    if l in after && l.pid != request.pid {
      var x :| x in before && Piece(x, l);
    }
  }

  // ---------- what the contract implies ----------

  /** No two owners hold excluding types on one byte. */
  ghost predicate ConflictFree(s: seq<Lock>) {
    forall o, o', b | o != o' && TypeAt(s, o, b) == WrLck :: TypeAt(s, o', b) == UnLck
  }

  /** `locks_conflict` reads the per-byte map: it finds an entry exactly when some byte of the
      range is held by another owner in an excluding type. */
  lemma ExcludesMeaning(s: seq<Lock>, lock: Lock)
    requires Canonical(s) && ValidRange(lock)
    ensures (exists l | l in s :: Excludes(l, lock)) <==>
            exists o, b | o != lock.owner && lock.start <= b <= lock.end ::
              TypeAt(s, o, b) == WrLck || (TypeAt(s, o, b) != UnLck && lock.typ == WrLck)
  {
    if l :| l in s && Excludes(l, lock) {
      CanonicalMember(s, l);
      var b := if l.start < lock.start then lock.start else l.start;
      TypeAtEntry(s, l, b);
    }
    if o, b :| o != lock.owner && lock.start <= b <= lock.end &&
               (TypeAt(s, o, b) == WrLck || (TypeAt(s, o, b) != UnLck && lock.typ == WrLck)) {
      var l := TypeAtWitness(s, o, b);
      assert Excludes(l, lock);
    }
  }

  /** Granting a request keeps the owners apart if and only if it is an unlock or
      `locks_conflict` found nothing in its way. */
  lemma ConflictFreeAfter(before: seq<Lock>, after: seq<Lock>, request: Lock)
    requires Canonical(before) && ConflictFree(before) && Grants(before, request, after)
    ensures ConflictFree(after) <==> request.typ == UnLck || forall l | l in before :: !Excludes(l, request)
  {
    ExcludesMeaning(before, request);
    if request.typ != UnLck && exists l | l in before :: Excludes(l, request) {
      var o, b :| o != request.owner && request.start <= b <= request.end &&
                  (TypeAt(before, o, b) == WrLck || (TypeAt(before, o, b) != UnLck && request.typ == WrLck));
      assert TypeAt(after, o, b) == TypeAt(before, o, b);
      assert TypeAt(after, request.owner, b) == request.typ;
    } else {
      forall o, o', b | o != o' && TypeAt(after, o, b) == WrLck ensures TypeAt(after, o', b) == UnLck {
        assert TypeAt(after, o', b) == TypeAfter(before, request, o', b);
        assert TypeAt(after, o, b) == TypeAfter(before, request, o, b);
        if Covers(request, o, b) {
          assert !(TypeAt(before, o', b) != UnLck && request.typ == WrLck);
        } else if Covers(request, o', b) {
          assert request.typ == UnLck || !(TypeAt(before, o, b) == WrLck);
        }
      }
    }
  }

  /** The entries of one owner, without the process id, which has no part in the meaning. */
  function Of(s: seq<Lock>, owner: nat): seq<(LockType, Offset, Offset)> {
    if s == [] then []
    else if s[0].owner == owner then [(s[0].typ, s[0].start, s[0].end)] + Of(s[1..], owner)
    else Of(s[1..], owner)
  }

  /** The meaning of a canonical list determines the list: there is one way to write down what
      an owner holds. So equal requests in any order that gives equal meaning give equal lists. */
  lemma {:induction false} CanonicalUnique(a: seq<Lock>, b: seq<Lock>, owner: nat)
    requires Canonical(a) && Canonical(b)
    requires forall x :: TypeAt(a, owner, x) == TypeAt(b, owner, x)
    ensures Of(a, owner) == Of(b, owner)
    decreases |a| + |b|
  {
    if a != [] && a[0].owner != owner {
      CanonicalUnique(a[1..], b, owner);
    } else if b != [] && b[0].owner != owner {
      CanonicalUnique(a, b[1..], owner);
    } else if a != [] && b != [] {
      SameHead(a, b, owner);
      forall x ensures TypeAt(a[1..], owner, x) == TypeAt(b[1..], owner, x) {
        HeadAlone(a, owner, x);
        HeadAlone(b, owner, x);
      }
      CanonicalUnique(a[1..], b[1..], owner);
    } else if a != [] {
      TypeAtEntry(a, a[0], a[0].start);
    } else if b != [] {
      TypeAtEntry(b, b[0], b[0].start);
    }
  }

  /** After a head of the owner, the tail holds nothing up to the byte after the head's end that
      has the head's type, and nothing at all on the head's bytes. */
  lemma HeadAlone(s: seq<Lock>, owner: nat, x: Offset)
    requires Canonical(s) && s != [] && s[0].owner == owner
    ensures x <= s[0].end ==> TypeAt(s[1..], owner, x) == UnLck
    ensures s[0].end as int + 1 == x as int ==> TypeAt(s, owner, x) != s[0].typ
    ensures x < s[0].start ==> TypeAt(s, owner, x) == UnLck
  {
    if TypeAt(s[1..], owner, x) != UnLck {
      var l := TypeAtWitness(s[1..], owner, x);
      assert s[0] in [s[0]];
    }
  }

  lemma SameHead(a: seq<Lock>, b: seq<Lock>, owner: nat)
    requires Canonical(a) && Canonical(b) && a != [] && b != []
    requires a[0].owner == owner && b[0].owner == owner
    requires forall x :: TypeAt(a, owner, x) == TypeAt(b, owner, x)
    ensures a[0].typ == b[0].typ && a[0].start == b[0].start && a[0].end == b[0].end
  {
    HeadAlone(a, owner, b[0].start);
    HeadAlone(b, owner, a[0].start);
    assert TypeAt(a, owner, a[0].start) == TypeAt(b, owner, a[0].start);
    assert TypeAt(a, owner, b[0].start) == TypeAt(b, owner, b[0].start);
    if a[0].end < b[0].end {
      HeadAlone(a, owner, a[0].end + 1);
    }
    if b[0].end < a[0].end {
      HeadAlone(b, owner, b[0].end + 1);
    }
  }

  /** Closing a file drops all locks of the closer and no other: `fuse_flush_common` unlocks the
      range from 0 to OFFSET_MAX. */
  lemma UnlockAll(before: seq<Lock>, after: seq<Lock>, request: Lock, other: nat)
    requires Canonical(before) && Grants(before, request, after)
    requires request.typ == UnLck && request.start == 0 && request.end == OFFSET_MAX
    ensures Of(after, request.owner) == []
    ensures other != request.owner ==> Of(after, other) == Of(before, other)
  {
    forall b ensures TypeAt(after, request.owner, b) == TypeAt([], request.owner, b) {
      if TypeAt(after, request.owner, b) != UnLck {
        var l := TypeAtWitness(after, request.owner, b);
        CanonicalMember(after, l);
      }
    }
    CanonicalUnique(after, [], request.owner);
    if other != request.owner {
      CanonicalUnique(after, before, other);
    }
  }

  // ---------- whole runs ----------

  /** The lists that a sequence of granted requests leads through. */
  ghost predicate Run(lists: seq<seq<Lock>>, rs: seq<Lock>) {
    |lists| == |rs| + 1 && lists[0] == [] &&
    forall i | 0 <= i < |rs| :: Grants(lists[i], rs[i], lists[i + 1])
  }

  /** The type of the last request of `owner` that covers the byte. */
  function LastType(rs: seq<Lock>, owner: nat, b: Offset): LockType {
    if rs == [] then UnLck
    else if Covers(rs[|rs| - 1], owner, b) then rs[|rs| - 1].typ
    else LastType(rs[..|rs| - 1], owner, b)
  }

  function Own(rs: seq<Lock>, owner: nat): seq<Lock> {
    if rs == [] then []
    else Own(rs[..|rs| - 1], owner) + if rs[|rs| - 1].owner == owner then [rs[|rs| - 1]] else []
  }

  /** After every run the last request on a byte decides what its owner holds there. */
  lemma {:induction false} LastRequestWins(lists: seq<seq<Lock>>, rs: seq<Lock>, o: nat, b: Offset)
    requires Run(lists, rs)
    ensures TypeAt(lists[|rs|], o, b) == LastType(rs, o, b) == LastType(Own(rs, o), o, b)
  {
    if rs != [] {
      var n := |rs| - 1;
      assert rs[..n] == rs[..|rs| - 1];
      LastRequestWins(lists[..|rs|], rs[..n], o, b);
      assert Grants(lists[n], rs[n], lists[n + 1]);
      if rs[n].owner == o {
        assert Own(rs, o)[..|Own(rs, o)| - 1] == Own(rs[..n], o);
      } else {
        assert Own(rs, o) == Own(rs[..n], o);
      }
    }
  }

  /** What one owner's list looks like depends on that owner's requests only, whatever the
      others did in between. */
  lemma OwnersAreIndependent(lists: seq<seq<Lock>>, rs: seq<Lock>, lists': seq<seq<Lock>>, rs': seq<Lock>, owner: nat)
    requires Run(lists, rs) && Run(lists', rs') && Own(rs, owner) == Own(rs', owner)
    ensures Of(lists[|rs|], owner) == Of(lists'[|rs'|], owner)
  {
    forall b ensures TypeAt(lists[|rs|], owner, b) == TypeAt(lists'[|rs'|], owner, b) {
      LastRequestWins(lists, rs, owner, b);
      LastRequestWins(lists', rs', owner, b);
    }
    CanonicalUnique(lists[|rs|], lists'[|rs'|], owner);
  }

  /** If every lock was granted only after `locks_conflict` found nothing, no two owners ever
      exclude each other on a byte. */
  lemma {:induction false} RunConflictFree(lists: seq<seq<Lock>>, rs: seq<Lock>)
    requires Run(lists, rs)
    requires forall i | 0 <= i < |rs| :: rs[i].typ == UnLck || forall l | l in lists[i] :: !Excludes(l, rs[i])
    ensures ConflictFree(lists[|rs|])
  {
    if rs != [] {
      var n := |rs| - 1;
      RunConflictFree(lists[..|rs|], rs[..n]);
      assert Grants(lists[n], rs[n], lists[n + 1]);
      assert n > 0 ==> Grants(lists[n - 1], rs[n - 1], lists[n]);
      ConflictFreeAfter(lists[n], lists[n + 1], rs[n]);
    }
  }

  // ---------- struct flock ----------

  datatype Flock = Flock(typ: LockType, start: Offset, len: Offset, pid: int)

  function FlockToLock(f: Flock, owner: nat): Lock
    requires f.len != 0 ==> 0 <= f.start as int + f.len as int <= OFFSET_MAX as int
  {
    Lock(f.typ, f.start, if f.len != 0 then f.start + f.len - 1 else OFFSET_MAX, f.pid, owner)
  }

  function LockToFlock(l: Lock): Flock
    requires ValidRange(l)
  {
    Flock(l.typ, l.start, if l.end == OFFSET_MAX then 0 else l.end - l.start + 1, l.pid)
  }

  /** Length 0 stands for "to the end of the file" and nothing else does: the two conversions
      undo each other on every valid range. */
  lemma FlockRoundTrip(l: Lock, f: Flock)
    requires ValidRange(l)
    requires 0 <= f.start && 0 <= f.len && f.start as int + f.len as int <= OFFSET_MAX as int
    ensures FlockToLock(LockToFlock(l), l.owner) == l
    ensures ValidRange(FlockToLock(f, l.owner)) && LockToFlock(FlockToLock(f, l.owner)) == f
  {
  }

  class Inode {
    var locks: seq<Lock>

    constructor ()
      ensures locks == [] && Canonical(locks)
    {
      locks := [];
    }

    /** `locks_conflict`: the first entry of another owner that excludes `lock`. */
    method LocksConflict(lock: Lock) returns (r: Search)
      ensures r.Found? ==> exists i :: 0 <= i < |locks| && locks[i] == r.lock && Excludes(r.lock, lock) &&
                                       forall j | 0 <= j < i :: !Excludes(locks[j], lock)
      ensures r.NotFound? <==> forall l | l in locks :: !Excludes(l, lock)
    {
      var i := 0;
      while i < |locks|
        invariant 0 <= i <= |locks|
        invariant forall j | 0 <= j < i :: !Excludes(locks[j], lock)
      {
        if Excludes(locks[i], lock) {
          return Found(locks[i]);
        }
        i := i + 1;
      }
      return NotFound;
    }

    /** `locks_insert`. `memory` is false when one of the two allocations made up front fails. */
    method LocksInsert(request: Lock, memory: bool) returns (status: Status)
      requires Canonical(locks) && ValidRange(request)
      modifies this
      ensures status == NoLocks <==> NeedsMemory(request) && !memory
      ensures status == NoLocks ==> locks == old(locks)
      ensures status == Ok ==> Grants(old(locks), request, locks) && Attributed(old(locks), request, locks)
      ensures |locks| <= |old(locks)| + 2
    {
      hide Canonical, Tracks, Grants, TypeAt, Remains, Pieces, Attributed;
      var lock := request;
      var newl1, newl2 := false, false;  // the spare nodes still owned by the call
      if NeedsMemory(lock) {
        if !memory {
          return NoLocks;
        }
        newl1, newl2 := true, true;
      }
      status := Ok;
      ghost var old_ := locks;
      ScanningStarts(old_, request);
      PiecesStart(old_, request);
      hide Scanning;
      var i := 0;
      while i < |locks|
        invariant Scanning(old_, request, locks, i, lock)
        invariant Pieces(old_, request, locks) && Stored(request, lock)
        invariant newl1 == NeedsMemory(request)
        invariant NeedsMemory(request) && !newl2 ==>
          i < |locks| && locks[i].owner == lock.owner && locks[i].typ != lock.typ && lock.end < locks[i].start
        invariant |locks| <= |old_| + if NeedsMemory(request) && !newl2 then 1 else 0
        decreases newl2, |locks| - i
      {
        var l := locks[i];
        ScanningMember(old_, request, locks, i, lock);
        if l.owner != lock.owner {
        } else if lock.typ == l.typ {
          if l.end < lock.start - 1 {
          } else if lock.end < l.start - 1 {
            break;
          } else if l.start <= lock.start && lock.end <= l.end {
            Contained(old_, locks, l, request, lock);
            PiecesContain(old_, request, locks, l, lock);
            return;
          } else {
            ghost var was := lock;
            if l.start < lock.start {
              lock := lock.(start := l.start);
            }
            if lock.end < l.end {
              lock := lock.(end := l.end);
            }
            Absorb(old_, request, locks, i, was, lock);
            PiecesReshape(old_, request, locks, i, []);
            assert locks[..i] + [] + locks[i + 1..] == locks[..i] + locks[i + 1..];
            locks := locks[..i] + locks[i + 1..];
            continue;
          }
        } else {
          if l.end < lock.start {
          } else if lock.end < l.start {
            break;
          } else if lock.start <= l.start && l.end <= lock.end {
            NothingRemains(l, lock);
            Reshape(old_, request, locks, i, [], lock);
            PiecesReshape(old_, request, locks, i, []);
            assert locks[..i] + [] + locks[i + 1..] == locks[..i] + locks[i + 1..];
            locks := locks[..i] + locks[i + 1..];
            continue;
          } else if l.end <= lock.end {
            var l' := l.(end := lock.start - 1);
            TrimRemains(l, l', lock);
            Reshape(old_, request, locks, i, [l'], lock);
            PiecesReshape(old_, request, locks, i, [l']);
            locks := locks[..i] + [l'] + locks[i + 1..];
          } else if lock.start <= l.start {
            var l' := l.(start := lock.end + 1);
            TrimRemains(l, l', lock);
            Reshape(old_, request, locks, i, [l'], lock);
            PiecesReshape(old_, request, locks, i, [l']);
            locks := locks[..i] + [l'] + locks[i + 1..];
            break;
          } else {
            assert newl2;
            var l' := l.(end := lock.start - 1);
            var r := l.(start := lock.end + 1);
            SplitRemains(l, l', r, lock);
            Reshape(old_, request, locks, i, [l', r], lock);
            PiecesReshape(old_, request, locks, i, [l', r]);
            locks := locks[..i] + [l', r] + locks[i + 1..];
            newl2 := false;
          }
        }
        Skip(old_, request, locks, i, lock);
        i := i + 1;
      }
      if i < |locks| {
        Stop(old_, request, locks, i, lock);
      }
      Finish(old_, request, locks, i, lock);
      PiecesEnd(old_, request, locks, i, lock);
      if lock.typ != UnLck {
        assert newl1;
        locks := locks[..i] + [lock] + locks[i..];
      }
    }
  }
}
