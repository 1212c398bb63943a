/** The passthrough example (example/passthrough_ll.c): an inode lives in the list as long as the
    kernel holds lookups on it. The requests run one after the other. */
module Passthrough {
  import opened Lists
  import opened Wrappers
  import Paging

  /** `struct lo_inode`, without its links */
  datatype Inode = Inode(ino: nat, dev: nat, refcount: int)

  /** An entry of the directory stream; `off` is where the stream stands behind it. */
  datatype Dent = Dent(name: string, off: nat)

  /** An entry of a reply; `ino` is the inode that the kernel may use, or 0. */
  datatype Reply = Reply(ino: nat, name: string, off: nat)

  type Inodes = map<nat, Inode>

  const ENOMEM: int := 12

  /** What openat and fstatat report of a name, the error if they fail, and whether calloc succeeds. */
  datatype Lookup = Lookup(stat: Option<(nat, nat)>, errno: int, memory: bool)

  /** The lookup can fail: the file cannot be found, or there is no memory for an inode. */
  predicate Trouble(look: Lookup) {
    look.stat.None? || !look.memory
  }

  predicate IsDot(name: string) {
    name == "." || name == ".."
  }

  // ---------- the invariant ----------

  /** The list holds exactly the inodes on which the kernel holds lookups, counts them, and has one
      inode for each file. */
  ghost predicate Counted(inodes: Inodes, list: seq<nat>, held: multiset<nat>) {
    Distinct(list) && (forall r :: r in list <==> r in inodes) && (forall r :: r in inodes <==> r in held) &&
    (forall r | r in inodes :: inodes[r].refcount == held[r] && r != 0) &&
    forall r, q | r in inodes && q in inodes && inodes[r].ino == inodes[q].ino && inodes[r].dev == inodes[q].dev ::
        r == q
  }

  /** Every inode that is still there stands for the same file, and new ones have addresses from `brk`
      on, which have not been used before. */
  ghost predicate Kept(inodes: Inodes, brk: nat, inodes': Inodes, brk': nat) {
    brk <= brk' &&
    forall r | r in inodes' :: (r in inodes && SameFile(inodes[r], inodes'[r])) || r >= brk
  }

  /** The file has an inode. */
  predicate HasFile(inodes: Inodes, stat: (nat, nat)) {
    exists r :: r in inodes && inodes[r].ino == stat.0 && inodes[r].dev == stat.1
  }

  predicate SameFile(a: Inode, b: Inode) {
    a.ino == b.ino && a.dev == b.dev
  }

  lemma KeptSame(inodes: Inodes, brk: nat)
    ensures Kept(inodes, brk, inodes, brk)
  {
  }

  lemma KeptTwice(a: Inodes, brka: nat, b: Inodes, brkb: nat, c: Inodes, brkc: nat)
    requires Kept(a, brka, b, brkb) && Kept(b, brkb, c, brkc)
    ensures Kept(a, brka, c, brkc)
  {
  }

  /** The lookups that the kernel holds determine the inodes, once their files are known. */
  lemma HeldDetermines(inodes: Inodes, list: seq<nat>, brk: nat, inodes': Inodes, list': seq<nat>, brk': nat,
                       held: multiset<nat>)
    requires Counted(inodes, list, held) && Counted(inodes', list', held) && Kept(inodes, brk, inodes', brk')
    requires forall r | r in inodes :: r < brk
    ensures inodes' == inodes
  {
    assert forall r :: r in inodes' <==> r in inodes;
  }

  /** Two lookups of a file give the same inode, as long as it is not forgotten in between. */
  lemma SameFileSameInode(inodes: Inodes, brk: nat, inodes': Inodes, list': seq<nat>, brk': nat, held': multiset<nat>,
                          r: nat, r': nat)
    requires Kept(inodes, brk, inodes', brk') && Counted(inodes', list', held')
    requires r in inodes && r < brk && r in inodes' && r' in inodes' && SameFile(inodes[r], inodes'[r'])
    ensures r == r'
  {
  }

  lemma CountedAt(inodes: Inodes, list: seq<nat>, held: multiset<nat>, r: nat)
    requires Counted(inodes, list, held)
    ensures r in inodes <==> r in held
    ensures r in inodes ==> r != 0 && inodes[r].refcount == held[r] && held[r] > 0
  {
  }

  lemma CountedList(inodes: Inodes, list: seq<nat>, held: multiset<nat>)
    requires Counted(inodes, list, held)
    ensures forall r :: r in list <==> r in inodes
  {
  }

  lemma KeptSteps(inodes: Inodes, brk: nat, r: nat, refcount: int, inode: Inode)
    ensures r in inodes ==> Kept(inodes, brk, inodes[r := inodes[r].(refcount := refcount)], brk)
    ensures Kept(inodes, brk, inodes - {r}, brk)
    ensures Kept(inodes, brk, inodes[brk := inode], brk + 1)
  {
  }

  lemma LessTwice(inodes: Inodes, r: nat, inode: Inode)
    ensures inodes[r := inode] - {r} == inodes - {r}
  {
  }

  lemma CountedMore(inodes: Inodes, list: seq<nat>, held: multiset<nat>, r: nat)
    requires Counted(inodes, list, held) && r in inodes
    ensures Counted(inodes[r := inodes[r].(refcount := inodes[r].refcount + 1)], list, held + multiset{r})
  {
  }

  lemma CountedNew(inodes: Inodes, list: seq<nat>, held: multiset<nat>, r: nat, ino: nat, dev: nat)
    requires Counted(inodes, list, held) && r !in inodes && r != 0
    requires forall q | q in inodes :: !(inodes[q].ino == ino && inodes[q].dev == dev)
    ensures Counted(inodes[r := Inode(ino, dev, 1)], [r] + list, held + multiset{r})
  {
    assert forall q :: q in [r] + list <==> q == r || q in list;
  }

  function Copies(r: nat, n: nat): multiset<nat> {
    multiset{}[r := n]
  }

  lemma CountedLess(inodes: Inodes, list: seq<nat>, held: multiset<nat>, r: nat, n: nat)
    requires Counted(inodes, list, held) && r in inodes && n <= held[r]
    ensures n < held[r] ==>
      Counted(inodes[r := inodes[r].(refcount := inodes[r].refcount - n)], list, held - Copies(r, n))
    ensures n == held[r] ==> Counted(inodes - {r}, Without(list, r), held - Copies(r, n))
  {
    WithoutKeeps(list, r);
  }

  // ---------- directory streams ----------

  predicate GoodStream(stream: seq<Dent>) {
    (forall i | 0 <= i < |stream| :: stream[i].off != 0 && stream[i].name != "") &&
    forall i, j | 0 <= i < j < |stream| :: stream[i].off != stream[j].off
  }

  /** Where `seekdir` goes: behind the entry with that offset; 0 is the start. */
  function Seek(stream: seq<Dent>, off: nat): (at: nat)
    ensures at <= |stream|
  {
    if off == 0 || stream == [] then 0 else if stream[0].off == off then 1 else
      var rest := Seek(stream[1..], off);
      if rest == 0 then 0 else rest + 1
  }

  lemma {:induction false} SeekBehind(stream: seq<Dent>, i: nat)
    requires GoodStream(stream) && i < |stream|
    ensures Seek(stream, stream[i].off) == i + 1
  {
    if i > 0 {
      SeekBehind(stream[1..], i - 1);
    }
  }

  /** `struct lo_dirp`. An entry that did not fit is kept for the next call. */
  class LoDirp {
    const stream: seq<Dent>
    var next: nat               // where the stream stands
    var entry: Option<Dent>
    var offset: nat

    constructor (stream: seq<Dent>)
      requires GoodStream(stream)
      ensures Valid() && this.stream == stream && offset == 0
    {
      this.stream, next, entry, offset := stream, 0, None, 0;
    }

    ghost predicate Valid()
      reads this
    {
      GoodStream(stream) && next <= |stream| && At() == Seek(stream, offset) &&
      (entry.Some? ==> next > 0 && entry == Some(stream[next - 1]))
    }

    /** Reads the next entry, unless one has been kept: 0, or the error that readdir reports. */
    method Fetch(failure: nat) returns (errno: int)
      requires Valid()
      modifies this`next, this`entry
      ensures Valid() && At() == old(At()) && errno == if old(entry).None? then failure else 0
      ensures errno == 0 ==> if At() < |stream| then entry == Some(stream[At()]) else entry == None
      ensures errno != 0 ==> entry == None
    {
      if entry.Some? {
        return 0;
      }
      if failure > 0 {
        return failure;
      }
      if next == |stream| {
        return 0;
      }
      entry := Some(stream[next]);
      next := next + 1;
      return 0;
    }

    /** The next entry to be returned */
    ghost function At(): int
      reads this
    {
      if entry.Some? then next - 1 else next
    }
  }

  // ---------- struct lo_data ----------

  class LoData {
    var inodes: Inodes
    var list: seq<nat>           // from root.next on
    var brk: nat                 // addresses from here on have not been used
    ghost var held: multiset<nat>  // the lookups that the kernel holds

    ghost predicate Valid()
      reads this
    {
      Counted(inodes, list, held) && brk > 0 && forall r | r in inodes :: r < brk
    }

    constructor ()
      ensures Valid() && held == multiset{}
    {
      inodes, list, brk, held := map[], [], 1, multiset{};
    }

    /** `lo_find`; its assert holds. */
    method Find(ino: nat, dev: nat) returns (ret: Option<nat>)
      requires Valid()
      modifies this`inodes, this`held
      ensures Valid()
      ensures ret.Some? ==> ret.value in inodes && inodes[ret.value].ino == ino && inodes[ret.value].dev == dev
      ensures ret.Some? ==> held == old(held) + multiset{ret.value} && ret.value in old(inodes)
      ensures ret.Some? ==>
        inodes == old(inodes)[ret.value := old(inodes)[ret.value].(refcount := old(inodes)[ret.value].refcount + 1)]
      ensures ret.None? ==> held == old(held) && inodes == old(inodes)
      ensures ret.None? ==> forall q | q in inodes :: !(inodes[q].ino == ino && inodes[q].dev == dev)
      ensures Kept(old(inodes), brk, inodes, brk)
    {
      hide Counted, Kept;
      CountedList(inodes, list, held);
      KeptSame(inodes, brk);
      for k := 0 to |list|
        invariant inodes == old(inodes) && held == old(held)
        invariant forall j | 0 <= j < k :: !(inodes[list[j]].ino == ino && inodes[list[j]].dev == dev)
      {
        var p := list[k];
        if inodes[p].ino == ino && inodes[p].dev == dev {
          CountedAt(inodes, list, held, p);
          assert inodes[p].refcount > 0;
          KeptSteps(inodes, brk, p, inodes[p].refcount + 1, inodes[p]);
          CountedMore(inodes, list, held, p);
          inodes := inodes[p := inodes[p].(refcount := inodes[p].refcount + 1)];
          held := held + multiset{p};
          return Some(p);
        }
      }
      return None;
    }

    /** `lo_do_lookup`; `stat` is what openat and fstatat report, or the error. One more lookup on the
        inode of the file, or an error and no change. */
    method DoLookup(stat: Option<(nat, nat)>, errno: int, memory: bool) returns (err: int, ino: nat)
      requires Valid() && errno > 0
      modifies this
      ensures Valid() && (err == 0 || err == errno) && Kept(old(inodes), old(brk), inodes, brk)
      ensures err != 0 ==> held == old(held) && inodes == old(inodes) && list == old(list) && brk == old(brk)
      ensures err == 0 ==>
        stat.Some? && ino in inodes && inodes[ino].ino == stat.value.0 && inodes[ino].dev == stat.value.1
      ensures err == 0 ==> held == old(held) + multiset{ino} && ino != 0
      ensures err == 0 ==> if ino in old(inodes) then list == old(list) && brk == old(brk)
                           else ino == old(brk) && list == [ino] + old(list)
      ensures err == 0 ==> inodes - {ino} == old(inodes) - {ino}
      ensures err == 0 <==> stat.Some? && (memory || HasFile(old(inodes), stat.value))
    {
      hide Counted, Kept;
      KeptSame(inodes, brk);
      if stat.None? {
        return errno, 0;
      }
      ghost var was := inodes;
      var found := Find(stat.value.0, stat.value.1);
      if found.Some? {
        CountedAt(inodes, list, held, found.value);
        assert inodes - {found.value} == was - {found.value};
        return 0, found.value;
      }
      if !memory {
        return errno, 0;
      }
      ino := brk;
      brk := brk + 1;
      CountedNew(inodes, list, held, ino, stat.value.0, stat.value.1);
      inodes := inodes[ino := Inode(stat.value.0, stat.value.1, 1)];
      list := [ino] + list;
      held := held + multiset{ino};
      KeptSteps(was, ino, ino, 1, inodes[ino]);
      assert inodes - {ino} == was - {ino};
      return 0, ino;
    }

    /** `lo_link` takes one more lookup on an inode that the kernel knows. */
    method Link(ino: nat)
      requires Valid() && ino in held
      modifies this`inodes, this`held
      ensures Valid() && held == old(held) + multiset{ino} && ino in old(inodes) && Kept(old(inodes), brk, inodes, brk)
      ensures inodes == old(inodes)[ino := old(inodes)[ino].(refcount := old(inodes)[ino].refcount + 1)]
    {
      hide Counted, Kept;
      CountedAt(inodes, list, held, ino);
      CountedMore(inodes, list, held, ino);
      KeptSteps(inodes, brk, ino, inodes[ino].refcount + 1, inodes[ino]);
      inodes := inodes[ino := inodes[ino].(refcount := inodes[ino].refcount + 1)];
      held := held + multiset{ino};
    }

    /** `unref_inode`: its assert holds as long as the kernel forgets no more than it holds. */
    method Unref(inode: nat, n: nat)
      requires Valid() && inode in inodes && n <= held[inode]
      modifies this`inodes, this`list, this`held
      ensures Valid() && held == old(held) - Copies(inode, n) && Kept(old(inodes), brk, inodes, brk)
      ensures var left := old(inodes)[inode].refcount - n;
        && inodes == (if left == 0 then old(inodes) - {inode}
                      else old(inodes)[inode := old(inodes)[inode].(refcount := left)])
        && list == if left == 0 then Without(old(list), inode) else old(list)
    {
      hide Counted, Kept, Without, Copies;
      CountedAt(inodes, list, held, inode);
      assert inodes[inode].refcount >= n;
      KeptSteps(inodes, brk, inode, inodes[inode].refcount - n, inodes[inode]);
      CountedLess(inodes, list, held, inode, n);
      inodes := inodes[inode := inodes[inode].(refcount := inodes[inode].refcount - n)];
      held := held - Copies(inode, n);
      if inodes[inode].refcount == 0 {
        LessTwice(old(inodes), inode, inodes[inode]);
        list := Without(list, inode);
        inodes := inodes - {inode};
      }
    }

    /** `lo_forget_one` for an inode that has not been handed to the kernel after all */
    method Return(inode: nat)
      requires Valid() && inode in held
      modifies this`inodes, this`list, this`held
      ensures Valid() && held == old(held) - multiset{inode} && Kept(old(inodes), brk, inodes, brk)
    {
      hide Counted, Kept;
      CountedAt(inodes, list, held, inode);
      Unref(inode, 1);
      assert Copies(inode, 1) == multiset{inode};
    }

    /** Takes the lookup of an entry back that does not fit; then all is as before the lookup. */
    method TakeBack(entryIno: nat, ghost was: Inodes, ghost wasList: seq<nat>, ghost wasBrk: nat,
                    ghost wasHeld: multiset<nat>)
      requires Valid() && Counted(was, wasList, wasHeld) && (forall r | r in was :: r < wasBrk)
      requires Kept(was, wasBrk, inodes, brk)
      requires held == wasHeld + if entryIno == 0 then multiset{} else multiset{entryIno}
      modifies this`inodes, this`list, this`held
      ensures Valid() && held == wasHeld && inodes == was && Kept(was, wasBrk, inodes, brk)
    {
      hide Counted, Kept;
      if entryIno != 0 {
        Return(entryIno);
        KeptTwice(was, wasBrk, old(inodes), brk, inodes, brk);
      }
      assert held == wasHeld;
      HeldDetermines(was, wasList, wasBrk, inodes, list, brk, held);
    }

    /** `lo_forget_multi` */
    method ForgetMulti(forgets: seq<(nat, nat)>)
      requires Valid() && Forgotten(forgets) <= held && forall i | 0 <= i < |forgets| :: forgets[i].1 > 0
      modifies this`inodes, this`list, this`held
      ensures Valid() && held == old(held) - Forgotten(forgets) && Kept(old(inodes), brk, inodes, brk)
    {
      ghost var rest := forgets;
      hide Counted, Kept;
      KeptSame(inodes, brk);
      for i := 0 to |forgets|
        invariant Kept(old(inodes), brk, inodes, brk)
        invariant Valid() && rest == forgets[i..] && Forgotten(rest) <= held
        invariant held - Forgotten(rest) == old(held) - Forgotten(forgets)
      {
        assert rest[0] == forgets[i] && rest[1..] == forgets[i + 1..];
        CountedAt(inodes, list, held, forgets[i].0);
        ghost var was := inodes;
        Unref(forgets[i].0, forgets[i].1);
        KeptTwice(old(inodes), brk, was, brk, inodes, brk);
        rest := rest[1..];
      }
    }

    /** The inode for an entry of a reply: a readdirplus reply looks up all but the dots. */
    method Resolve(plus: bool, name: string, look: Lookup) returns (err: int, entryIno: nat)
      requires Valid() && look.errno > 0
      modifies this
      ensures Valid() && (err == 0 || (err == look.errno && plus && !IsDot(name) && Trouble(look)))
      ensures Kept(old(inodes), old(brk), inodes, brk)
      ensures err != 0 ==> held == old(held) && inodes == old(inodes) && list == old(list)
      ensures err == 0 ==> (entryIno != 0 <==> plus && !IsDot(name))
      ensures err == 0 ==> held == old(held) + if entryIno == 0 then multiset{} else multiset{entryIno}
    {
      hide Counted, Kept;
      KeptSame(inodes, brk);
      if !plus || IsDot(name) {
        return 0, 0;
      }
      err, entryIno := DoLookup(look.stat, look.errno, look.memory);
    }

    /** One turn of the loop of `lo_do_readdir`: an entry for the reply, or its end with an error, at
        the end of the stream or before an entry that does not fit. */
    method NextEntry(d: LoDirp, plus: bool, rem: nat, failure: nat, look: Lookup)
      returns (err: int, r: Option<Reply>)
      requires Valid() && d.Valid() && look.errno > 0
      modifies this, d
      ensures Valid() && d.Valid() && err >= 0 && Kept(old(inodes), old(brk), inodes, brk)
      ensures r.Some? ==> err == 0 && 0 <= old(d.At()) < |d.stream| && d.At() == old(d.At()) + 1
      ensures r.Some? ==> Answer(d.stream[old(d.At())], plus, r.value) && Paging.RecordSize(plus, |r.value.name|) <= rem
      ensures r.Some? ==> held == old(held) + if r.value.ino == 0 then multiset{} else multiset{r.value.ino}
      ensures r.None? ==> d.At() == old(d.At()) && held == old(held) && inodes == old(inodes)
      ensures r.None? && err == 0 ==>
        d.At() >= |d.stream| || (d.At() >= 0 && Paging.RecordSize(plus, |d.stream[d.At()].name|) > rem)
      ensures err != 0 ==> err == failure || (err == look.errno && plus && Trouble(look))
    {
      hide Counted, Kept, Paging.RecordSize, Seek, GoodStream, IsDot;
      r := None;
      KeptSame(inodes, brk);
      err := d.Fetch(failure);
      if err > 0 || d.entry.None? {
        return;
      }
      var nextoff, name := d.entry.value.off, d.entry.value.name;
      var entryIno;
      err, entryIno := Resolve(plus, name, look);
      if err != 0 {
        return;
      }
      var entsize := Paging.RecordSize(plus, |name|);
      if entsize > rem {
        TakeBack(entryIno, old(inodes), old(list), old(brk), old(held));
        return;
      }
      SeekBehind(d.stream, d.next - 1);
      d.entry := None;
      d.offset := nextoff;
      return 0, Some(Reply(entryIno, name, nextoff));
    }

    /** `lo_do_readdir`. An error is reported only if nothing has been stored. Turn `k` of the loop meets
        the error `failures(k)` of readdir, if it is not 0, and the outcome `looks(k)` of a lookup: the
        reply ends only with the stream, before an entry that does not fit, or where one of them fails. */
    method DoReaddir(d: LoDirp, size: nat, offset: nat, plus: bool, memory: bool, failures: nat -> nat,
                     looks: nat -> Lookup) returns (err: int, reply: seq<Reply>)
      requires Valid() && d.Valid() && forall k :: looks(k).errno > 0
      modifies this, d
      ensures Valid() && d.Valid() && (err != 0 ==> reply == [] && inodes == old(inodes))
      ensures Kept(old(inodes), old(brk), inodes, brk)
      ensures held == old(held) + Inos(reply) && Total(plus, reply) <= size
      ensures Answers(d.stream, Seek(d.stream, offset), plus, reply)
      ensures if memory then d.At() == Seek(d.stream, offset) + |reply| else err == ENOMEM
      ensures memory && failures(|reply|) == 0 && !(plus && Trouble(looks(|reply|))) ==>
        && err == 0
        && (d.At() == |d.stream| || (0 <= d.At() < |d.stream| &&
            Paging.RecordSize(plus, |d.stream[d.At()].name|) > size - Total(plus, reply)))
      ensures memory && reply == [] && 0 <= d.At() < |d.stream| ==>
        Paging.RecordSize(plus, |d.stream[d.At()].name|) > size || err != 0
      ensures memory && err != 0 ==> err == failures(0) || (err == looks(0).errno && plus && Trouble(looks(0)))
    {
      hide Counted, Kept, Paging.RecordSize, Seek, Total, Inos, Answers, Answer, GoodStream;
      err, reply := 0, [];
      KeptSame(inodes, brk);
      NothingStored(d.stream, Seek(d.stream, offset), plus);
      if !memory {
        return ENOMEM, [];
      }
      if offset != d.offset {
        d.next, d.entry, d.offset := Seek(d.stream, offset), None, offset;
      }
      err, reply := Collect(d, size, plus, failures, looks);
      NothingTotal(plus, reply);
      if err != 0 && reply != [] {
        err := 0;
      }
      if reply == [] {
        assert held == old(held);
        HeldDetermines(old(inodes), old(list), old(brk), inodes, list, brk, held);
      }
    }

    /** The loop of `lo_do_readdir`; the reply takes the space that `rem` has lost. */
    method Collect(d: LoDirp, size: nat, plus: bool, failures: nat -> nat, looks: nat -> Lookup)
      returns (err: int, reply: seq<Reply>)
      requires Valid() && d.Valid() && d.At() >= 0 && forall k :: looks(k).errno > 0
      modifies this, d
      ensures Valid() && d.Valid() && d.At() == old(d.At()) + |reply| && Kept(old(inodes), old(brk), inodes, brk)
      ensures held == old(held) + Inos(reply) && Total(plus, reply) <= size
      ensures Answers(d.stream, old(d.At()), plus, reply)
      ensures err == 0 ==>
        d.At() == |d.stream| || (0 <= d.At() < |d.stream| &&
          Paging.RecordSize(plus, |d.stream[d.At()].name|) > size - Total(plus, reply))
      ensures err != 0 ==>
        var k := |reply|; err == failures(k) || (err == looks(k).errno && plus && Trouble(looks(k)))
    {
      hide Counted, Kept, Paging.RecordSize, Seek, Total, Inos, Answers, Answer, GoodStream;
      err, reply := 0, [];
      KeptSame(inodes, brk);
      ghost var from := d.At();
      NothingStored(d.stream, from, plus);
      var rem := size;
      while true
        invariant Valid() && d.Valid() && d.At() == from + |reply|
        invariant rem == size - Total(plus, reply) && rem >= 0 && held == old(held) + Inos(reply)
        invariant Answers(d.stream, from, plus, reply)
        invariant Kept(old(inodes), old(brk), inodes, brk)
        decreases |d.stream| - d.At()
      {
        ghost var was, brk' := inodes, brk;
        var r;
        err, r := NextEntry(d, plus, rem, failures(|reply|), looks(|reply|));
        KeptTwice(old(inodes), old(brk), was, brk', inodes, brk);
        if r.None? {
          NothingTotal(plus, reply);
          break;
        }
        Stored(plus, reply, r.value);
        AnswersMore(d.stream, from, plus, reply, r.value);
        reply := reply + [r.value];
        rem := rem - Paging.RecordSize(plus, |r.value.name|);
      }
    }
  }

  // ---------- replies ----------

  function Forgotten(forgets: seq<(nat, nat)>): multiset<nat> {
    if forgets == [] then multiset{} else Copies(forgets[0].0, forgets[0].1) + Forgotten(forgets[1..])
  }

  /** A request to forget several inodes counts for each inode all that is said of it. */
  lemma {:induction false} ForgottenTogether(a: seq<(nat, nat)>, b: seq<(nat, nat)>, r: nat, n: nat)
    ensures Forgotten(a + b) == Forgotten(a) + Forgotten(b)
    ensures Forgotten([(r, n)])[r] == n && forall q | q != r :: q !in Forgotten([(r, n)])
  {
    if a == [] {
      assert a + b == b;
    } else {
      assert (a + b)[1..] == a[1..] + b;
      ForgottenTogether(a[1..], b, r, n);
    }
  }

  /** The lookups that a reply hands to the kernel */
  function Inos(reply: seq<Reply>): multiset<nat> {
    if reply == [] then multiset{} else
      var last := reply[|reply| - 1].ino;
      Inos(reply[..|reply| - 1]) + if last == 0 then multiset{} else multiset{last}
  }

  /** The size of the records of a reply */
  function Total(plus: bool, reply: seq<Reply>): nat {
    if reply == [] then 0 else Total(plus, reply[..|reply| - 1]) + Paging.RecordSize(plus, |reply[|reply| - 1].name|)
  }

  lemma Stored(plus: bool, reply: seq<Reply>, r: Reply)
    ensures Inos(reply + [r]) == Inos(reply) + if r.ino == 0 then multiset{} else multiset{r.ino}
    ensures Total(plus, reply + [r]) == Total(plus, reply) + Paging.RecordSize(plus, |r.name|)
  {
    assert (reply + [r])[..|reply|] == reply;
  }

  /** An entry of a reply stands for that of the stream; all but the dots of a readdirplus reply
      carry a lookup. */
  predicate Answer(entry: Dent, plus: bool, r: Reply) {
    r.name == entry.name && r.off == entry.off && (r.ino != 0 <==> plus && !IsDot(r.name))
  }

  /** The reply holds consecutive entries of the stream. */
  ghost predicate Answers(stream: seq<Dent>, from: nat, plus: bool, reply: seq<Reply>) {
    from + |reply| <= |stream| && forall i | 0 <= i < |reply| :: Answer(stream[from + i], plus, reply[i])
  }

  lemma NothingStored(stream: seq<Dent>, from: nat, plus: bool)
    requires from <= |stream|
    ensures Answers(stream, from, plus, []) && Inos([]) == multiset{} && Total(plus, []) == 0
  {
  }

  lemma AnswersMore(stream: seq<Dent>, from: nat, plus: bool, reply: seq<Reply>, r: Reply)
    requires Answers(stream, from, plus, reply) && from + |reply| < |stream|
    requires Answer(stream[from + |reply|], plus, r)
    ensures Answers(stream, from, plus, reply + [r])
  {
  }

  lemma NothingTotal(plus: bool, reply: seq<Reply>)
    ensures Total(plus, reply) == 0 <==> reply == []
  {
  }

  /** Asking again with the offset of the last entry continues behind it. */
  lemma Continues(stream: seq<Dent>, from: nat, plus: bool, reply: seq<Reply>)
    requires GoodStream(stream) && Answers(stream, from, plus, reply) && reply != []
    ensures Seek(stream, reply[|reply| - 1].off) == from + |reply|
  {
    SeekBehind(stream, from + |reply| - 1);
    assert Answer(stream[from + |reply| - 1], plus, reply[|reply| - 1]);
  }
}
