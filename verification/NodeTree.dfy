/** The tree of named nodes in lib/fuse.c: parent pointers, the chain from a node to the root, the
    path spelled by it, and what moving or unlinking one node does to all the other paths. */
module NodeTree {
  import opened Wrappers

  const ROOT: nat := 1  // FUSE_ROOT_ID

  /** `node->parent` and `node->name`. Both are missing for an unlinked node. */
  datatype Link = Link(parent: Option<nat>, name: Option<string>)

  type Tree = map<nat, Link>

  /** No parent pointer dangles, the root has none, and a node with a parent has a name. */
  ghost predicate Linked(t: Tree) {
    ROOT in t && t[ROOT].parent == None &&
    forall n | n in t && t[n].parent.Some? :: t[n].parent.value in t && t[n].name.Some?
  }

  /** `c` is what following parent pointers from `n` gives, up to the node without a parent. */
  ghost predicate Climb(t: Tree, n: nat, c: seq<nat>)
    decreases |c|
  {
    c != [] && c[0] == n && n in t &&
    if t[n].parent == None then |c| == 1 else Climb(t, t[n].parent.value, c[1..])
  }

  /** Following parent pointers ends, wherever it starts: there is no cycle. */
  ghost predicate Acyclic(t: Tree) {
    forall n | n in t :: exists c :: Climb(t, n, c)
  }

  /** The climb ends at the root, so the node has a path. */
  ghost predicate Attached(t: Tree, n: nat, c: seq<nat>) {
    Climb(t, n, c) && c[|c| - 1] == ROOT
  }

  lemma {:induction false} ClimbUnique(t: Tree, n: nat, c: seq<nat>, d: seq<nat>)
    requires Climb(t, n, c) && Climb(t, n, d)
    ensures c == d
    decreases |c|
  {
    if t[n].parent != None {
      ClimbUnique(t, t[n].parent.value, c[1..], d[1..]);
    }
  }

  /** The part of a climb from its i-th node on is the climb of that node. */
  lemma {:induction false} ClimbSuffix(t: Tree, n: nat, c: seq<nat>, i: nat)
    requires Climb(t, n, c) && i < |c|
    ensures c[i] in t && Climb(t, c[i], c[i..])
    decreases i
  {
    if i > 0 {
      ClimbSuffix(t, t[n].parent.value, c[1..], i - 1);
      assert c[1..][i - 1..] == c[i..];
    } else {
      assert c[0..] == c;
    }
  }

  /** A climb meets no node twice. */
  lemma ClimbDistinct(t: Tree, n: nat, c: seq<nat>, i: nat, j: nat)
    requires Climb(t, n, c) && i < j < |c|
    ensures c[i] != c[j]
  {
    ClimbSuffix(t, n, c, i);
    ClimbSuffix(t, n, c, j);
    if c[i] == c[j] {
      ClimbUnique(t, c[i], c[i..], c[j..]);
    }
  }

  // ---------- paths ----------

  function NameIn(t: Tree, n: nat): string {
    if n in t then t[n].name.GetOr("") else ""
  }

  /** What `add_name` writes while it climbs over `s`: each name goes in front, after a slash. */
  function Spell(t: Tree, s: seq<nat>): string {
    if s == [] then "" else Spell(t, s[1..]) + "/" + NameIn(t, s[0])
  }

  /** The path of the node at the bottom of the climb `c`. */
  function PathOf(t: Tree, c: seq<nat>): string
    requires c != []
  {
    if |c| == 1 then "/" else Spell(t, c[..|c| - 1])
  }

  lemma {:induction false} SpellCat(t: Tree, a: seq<nat>, b: seq<nat>)
    ensures Spell(t, a + b) == Spell(t, b) + Spell(t, a)
  {
    if a == [] {
      assert a + b == b && Spell(t, b) + "" == Spell(t, b);
    } else {
      assert (a + b)[1..] == a[1..] + b;
      SpellCat(t, a[1..], b);
      assert (Spell(t, b) + Spell(t, a[1..])) + "/" + NameIn(t, a[0]) ==
             Spell(t, b) + (Spell(t, a[1..]) + "/" + NameIn(t, a[0]));
    }
  }

  lemma {:induction false} SpellSame(t: Tree, t': Tree, s: seq<nat>)
    requires forall n | n in s :: NameIn(t', n) == NameIn(t, n)
    ensures Spell(t', s) == Spell(t, s)
  {
    if s != [] {
      SpellSame(t, t', s[1..]);
    }
  }

  // ---------- changing one link ----------

  /** `t'` differs from `t` at most in the link of `n`. */
  ghost predicate OnlyChanges(t: Tree, t': Tree, n: nat) {
    forall m | m in t && m != n :: m in t' && t'[m] == t[m]
  }

  /** Climbs that avoid the changed node are not affected. */
  lemma {:induction false} ClimbAvoids(t: Tree, t': Tree, n: nat, q: nat, c: seq<nat>)
    requires Climb(t, q, c) && n !in c && OnlyChanges(t, t', n)
    ensures Climb(t', q, c) && Spell(t', c) == Spell(t, c)
    decreases |c|
  {
    if t[q].parent != None {
      ClimbAvoids(t, t', n, t[q].parent.value, c[1..]);
    }
  }

  /** A climb through the changed node keeps its lower part and takes over the node's new climb. */
  lemma {:induction false} ClimbThrough(t: Tree, t': Tree, n: nat, q: nat, c: seq<nat>, i: nat, cn: seq<nat>)
    requires Climb(t, q, c) && i < |c| && c[i] == n && Climb(t', n, cn) && OnlyChanges(t, t', n)
    ensures Climb(t', q, c[..i] + cn) && Spell(t', c[..i]) == Spell(t, c[..i])
    decreases |c|
  {
    if i == 0 {
      assert c[..0] + cn == cn;
    } else {
      ClimbDistinct(t, q, c, 0, i);
      ClimbThrough(t, t', n, t[q].parent.value, c[1..], i - 1, cn);
      assert (c[..i] + cn)[1..] == c[1..][..i - 1] + cn && c[..i][1..] == c[1..][..i - 1];
    }
  }

  /** Cutting links only shortens climbs. */
  lemma {:induction false} ClimbCut(t: Tree, t': Tree, q: nat, c: seq<nat>, c': seq<nat>)
    requires Climb(t, q, c) && Climb(t', q, c')
    requires forall m | m in t' && t'[m].parent.Some? :: m in t && t'[m].parent == t[m].parent
    ensures c' <= c
    decreases |c|
  {
    if t'[q].parent.Some? {
      ClimbCut(t, t', t[q].parent.value, c[1..], c'[1..]);
    }
  }

  /** The tree after `rename_node` has moved `n`. */
  function Moved(t: Tree, n: nat, newdir: nat, newname: string): Tree {
    t[n := Link(Some(newdir), Some(newname))]
  }

  /** Moving a node keeps the tree acyclic if and only if the new directory is outside the moved
      subtree, that is, the moved node is not on the way from the directory to the root. */
  lemma MoveKeepsAcyclic(t: Tree, n: nat, newdir: nat, newname: string, cd: seq<nat>)
    requires Linked(t) && Acyclic(t) && n in t && Climb(t, newdir, cd)
    ensures Acyclic(Moved(t, n, newdir, newname)) <==> n !in cd
  {
    if n !in cd {
      MoveOutside(t, n, newdir, newname, cd);
    } else if Acyclic(Moved(t, n, newdir, newname)) {
      MoveInside(t, n, newdir, newname, cd);
    }
  }

  lemma MoveOutside(t: Tree, n: nat, newdir: nat, newname: string, cd: seq<nat>)
    requires Linked(t) && Acyclic(t) && n in t && Climb(t, newdir, cd) && n !in cd
    ensures Acyclic(Moved(t, n, newdir, newname))
  {
    var t' := Moved(t, n, newdir, newname);
    MovedClimb(t, n, newdir, newname, cd);
    hide Climb, Linked;
    forall q | q in t' ensures exists c :: Climb(t', q, c) {
      var c :| Climb(t, q, c);
      if i :| 0 <= i < |c| && c[i] == n {
        ClimbThrough(t, t', n, q, c, i, [n] + cd);
      } else {
        ClimbAvoids(t, t', n, q, c);
      }
    }
  }

  lemma MoveInside(t: Tree, n: nat, newdir: nat, newname: string, cd: seq<nat>)
    requires n in t && Climb(t, newdir, cd) && n in cd
    ensures !Acyclic(Moved(t, n, newdir, newname))
  {
    var t' := Moved(t, n, newdir, newname);
    if Acyclic(t') {
      var i :| 0 <= i < |cd| && cd[i] == n;
      assert n in t';
      var c :| Climb(t', n, c);
      var k := FollowDown(t, t', n, newdir, cd, i, c[1..]);
      ClimbDistinct(t', n, c, 0, k + 1);
    }
  }

  /** In a tree that was changed at `n` only, the climb of `q` still reaches `n`. */
  lemma {:induction false} FollowDown(t: Tree, t': Tree, n: nat, q: nat, c: seq<nat>, i: nat,
                                      c': seq<nat>) returns (k: nat)
    requires Climb(t, q, c) && i < |c| && c[i] == n && OnlyChanges(t, t', n) && Climb(t', q, c')
    ensures k < |c'| && c'[k] == n
    decreases i
  {
    if q == n {
      k := 0;
    } else {
      k := FollowDown(t, t', n, t[q].parent.value, c[1..], i - 1, c'[1..]);
      k := k + 1;
    }
  }

  /** A rename leaves the path of every node outside the moved subtree alone. */
  lemma MoveKeepsPath(t: Tree, n: nat, newdir: nat, newname: string, q: nat, c: seq<nat>, c': seq<nat>)
    requires Attached(t, q, c) && Attached(Moved(t, n, newdir, newname), q, c') && n !in c
    ensures PathOf(Moved(t, n, newdir, newname), c') == PathOf(t, c)
  {
    var t' := Moved(t, n, newdir, newname);
    ClimbAvoids(t, t', n, q, c);
    ClimbUnique(t', q, c, c');
    SpellSame(t, t', c[..|c| - 1]);
  }

  /** The path of a node is that of any of its ancestors, followed by the names in between. */
  lemma PathSplit(t: Tree, q: nat, c: seq<nat>, i: nat)
    requires Attached(t, q, c) && i < |c| - 1
    ensures PathOf(t, c) == PathOf(t, c[i..]) + Spell(t, c[..i])
  {
    SpellCat(t, c[..i], c[i..][..|c| - i - 1]);
    assert c[..|c| - 1] == c[..i] + c[i..][..|c| - i - 1];
  }

  /** A rename replaces the prefix of exactly the moved subtree's paths: the moved node now has
      the path of its new directory, a slash and the new name, and what follows is as before. */
  lemma MoveRewritesPrefix(t: Tree, n: nat, newdir: nat, newname: string, cd: seq<nat>,
                           q: nat, c: seq<nat>, i: nat, c': seq<nat>)
    requires Attached(t, newdir, cd) && n !in cd && Climb(t, q, c) && i < |c| && c[i] == n
    requires Attached(Moved(t, n, newdir, newname), q, c')
    ensures PathOf(Moved(t, n, newdir, newname), c') ==
            Spell(t, cd[..|cd| - 1]) + "/" + newname + Spell(t, c[..i])
  {
    var t' := Moved(t, n, newdir, newname);
    var lower, updir := c[..i], cd[..|cd| - 1];
    MovedClimb(t, n, newdir, newname, cd);
    ClimbThrough(t, t', n, q, c, i, [n] + cd);
    ClimbUnique(t', q, lower + ([n] + cd), c');
    assert c'[..|c'| - 1] == lower + ([n] + updir);
    SpellCat(t', lower, [n] + updir);
  }

  lemma MovedClimb(t: Tree, n: nat, newdir: nat, newname: string, cd: seq<nat>)
    requires Climb(t, newdir, cd) && n !in cd
    ensures Climb(Moved(t, n, newdir, newname), n, [n] + cd)
    ensures Spell(Moved(t, n, newdir, newname), [n] + cd[..|cd| - 1]) == Spell(t, cd[..|cd| - 1]) + "/" + newname
  {
    var t' := Moved(t, n, newdir, newname);
    ClimbAvoids(t, t', n, newdir, cd);
    assert ([n] + cd)[1..] == cd;
    SpellSame(t, t', cd[..|cd| - 1]);
    assert ([n] + cd[..|cd| - 1])[1..] == cd[..|cd| - 1];
  }

  /** Unlinking a node cuts every climb at that node. */
  lemma UnlinkCuts(t: Tree, n: nat, name: Option<string>)
    requires Linked(t) && Acyclic(t) && n in t
    ensures Acyclic(t[n := Link(None, name)])
  {
    var t' := t[n := Link(None, name)];
    assert Climb(t', n, [n]);
    forall q | q in t' ensures exists c :: Climb(t', q, c) {
      var c :| Climb(t, q, c);
      if i :| 0 <= i < |c| && c[i] == n {
        ClimbThrough(t, t', n, q, c, i, [n]);
      } else {
        ClimbAvoids(t, t', n, q, c);
      }
    }
  }

  // ---------- looking a path up ----------

  /** The name table: which child of a directory has a name. */
  type Index = map<(nat, string), nat>

  ghost predicate Indexes(index: Index, t: Tree) {
    (forall n | n in t && t[n].parent.Some? ::
       var key := (t[n].parent.value, NameIn(t, n)); key in index && index[key] == n) &&
    forall key | key in index :: index[key] in t && t[index[key]] == Link(Some(key.0), Some(key.1))
  }

  /** Names as the kernel sends them. */
  predicate GoodName(s: string) {
    s != "" && '/' !in s
  }

  ghost predicate GoodNames(t: Tree) {
    forall n | n in t && t[n].parent.Some? :: GoodName(NameIn(t, n))
  }

  /** The names along `s` from the top down. */
  function NamesOf(t: Tree, s: seq<nat>): seq<string> {
    if s == [] then [] else NamesOf(t, s[1..]) + [NameIn(t, s[0])]
  }

  /** Looking up one name after the other, starting from the node `from`. */
  function Walk(index: Index, from: nat, names: seq<string>): Option<nat>
    decreases |names|
  {
    if names == [] then Some(from)
    else if (from, names[0]) in index then Walk(index, index[(from, names[0])], names[1..])
    else None
  }

  lemma {:induction false} WalkSnoc(index: Index, from: nat, names: seq<string>, last: string)
    ensures Walk(index, from, names + [last]) ==
            match Walk(index, from, names)
            case None => None
            case Some(dir) => if (dir, last) in index then Some(index[(dir, last)]) else None
    decreases |names|
  {
    if names == [] {
      assert (names + [last])[1..] == [];
    } else {
      assert (names + [last])[1..] == names[1..] + [last];
      if (from, names[0]) in index {
        WalkSnoc(index, index[(from, names[0])], names[1..], last);
      }
    }
  }

  /** Walking from the root reaches an attached node by its own names and by no other ones. */
  lemma {:induction false} WalkFinds(index: Index, t: Tree, n: nat, c: seq<nat>, names: seq<string>)
    requires Linked(t) && Indexes(index, t) && Attached(t, n, c)
    ensures Walk(index, ROOT, names) == Some(n) <==> names == NamesOf(t, c[..|c| - 1])
    decreases |c|
  {
    if names != [] {
      var front, last := names[..|names| - 1], names[|names| - 1];
      assert names == front + [last];
      WalkSnoc(index, ROOT, front, last);
    }
    if n != ROOT {
      assert |c| > 1;
      var up := t[n].parent.value;
      assert c[..|c| - 1][1..] == c[1..][..|c[1..]| - 1];
      if names != [] {
        WalkFinds(index, t, up, c[1..], names[..|names| - 1]);
      }
    } else {
      ClimbUnique(t, ROOT, c, [ROOT]);
    }
  }

  // ---------- the steps that change the tree and the name table ----------

  /** The tree is well linked, without cycles, and the name table lists its edges. */
  ghost predicate Named(t: Tree, index: Index) {
    Linked(t) && Acyclic(t) && Indexes(index, t)
  }

  /** `unhash_name` */
  function Unlinked(t: Tree, n: nat): Tree {
    t[n := Link(None, None)]
  }

  function KeyOf(t: Tree, n: nat): (nat, string) {
    (if n in t then t[n].parent.GetOr(ROOT) else ROOT, NameIn(t, n))
  }

  lemma UnlinkNamed(t: Tree, index: Index, n: nat)
    requires Named(t, index) && n in t && t[n].parent.Some?
    ensures Named(Unlinked(t, n), index - {KeyOf(t, n)})
  {
    var t', key := Unlinked(t, n), KeyOf(t, n);
    UnlinkCuts(t, n, None);
    forall m | m in t' && t'[m].parent.Some?
      ensures var k := (t'[m].parent.value, NameIn(t', m)); k in index && index[k] == m && k != key
    {
      assert t'[m] == t[m] && NameIn(t', m) == NameIn(t, m);
    }
  }

  /** `hash_name` for a node without a name, into a directory outside its subtree */
  lemma HashNamed(t: Tree, index: Index, n: nat, dir: nat, name: string, cd: seq<nat>)
    requires Named(t, index) && n in t && n != ROOT && t[n].parent == None
    requires Climb(t, dir, cd) && n !in cd && (dir, name) !in index
    ensures Named(Moved(t, n, dir, name), index[(dir, name) := n])
  {
    MoveKeepsAcyclic(t, n, dir, name, cd);
    IndexesMove(t, index, n, dir, name);
  }

  lemma IndexesMove(t: Tree, index: Index, n: nat, dir: nat, name: string)
    requires Indexes(index, t) && n in t && t[n].parent == None && (dir, name) !in index
    ensures Indexes(index[(dir, name) := n], Moved(t, n, dir, name))
  {
    var t' := Moved(t, n, dir, name);
    assert NameIn(t', n) == name;
    forall m | m in t' && t'[m].parent.Some? && m != n
      ensures var k := (t'[m].parent.value, NameIn(t', m)); k in index && index[k] == m && k != (dir, name)
    {
      assert t'[m] == t[m] && NameIn(t', m) == NameIn(t, m);
    }
  }

  /** A name in the table is that of a node of the tree, and not of the root. */
  lemma IndexedNode(t: Tree, index: Index, key: (nat, string))
    requires Named(t, index) && key in index
    ensures index[key] in t && index[key] != ROOT && KeyOf(t, index[key]) == key
    ensures t[index[key]].parent == Some(key.0)
  {
  }

  /** A fresh node without a name */
  lemma NewNamed(t: Tree, index: Index, n: nat)
    requires Named(t, index) && n !in t
    ensures Named(Unlinked(t, n), index)
  {
    var t' := Unlinked(t, n);
    assert Climb(t', n, [n]);
    forall q | q in t ensures exists c :: Climb(t', q, c) {
      var c :| Climb(t, q, c);
      ClimbIn(t, q, c);
      ClimbAvoids(t, t', n, q, c);
    }
    forall m | m in t' && t'[m].parent.Some?
      ensures var k := (t'[m].parent.value, NameIn(t', m)); k in index && index[k] == m
    {
      assert t'[m] == t[m] && NameIn(t', m) == NameIn(t, m);
    }
  }

  /** Freeing a node that has neither a name nor a child */
  lemma DeleteNamed(t: Tree, index: Index, n: nat)
    requires Named(t, index) && n in t && n != ROOT && t[n].parent == None
    requires forall m | m in t :: t[m].parent != Some(n)
    ensures Named(t - {n}, index)
  {
    var t' := t - {n};
    forall q | q in t' ensures exists c :: Climb(t', q, c) {
      var c :| Climb(t, q, c);
      ChildlessAside(t, n, q, c);
      ClimbAvoids(t, t', n, q, c);
    }
    forall m | m in t' && t'[m].parent.Some?
      ensures var k := (t'[m].parent.value, NameIn(t', m)); k in index && index[k] == m
    {
      assert t'[m] == t[m] && NameIn(t', m) == NameIn(t, m);
    }
  }

  /** A node without children lies on no climb but its own. */
  lemma {:induction false} ChildlessAside(t: Tree, n: nat, q: nat, c: seq<nat>)
    requires Climb(t, q, c) && q != n && forall m | m in t :: t[m].parent != Some(n)
    ensures n !in c
    decreases |c|
  {
    if t[q].parent != None {
      ChildlessAside(t, n, t[q].parent.value, c[1..]);
    }
  }

  lemma {:induction false} ClimbIn(t: Tree, n: nat, c: seq<nat>)
    requires Climb(t, n, c)
    ensures forall m | m in c :: m in t
    decreases |c|
  {
    if t[n].parent != None {
      ClimbIn(t, t[n].parent.value, c[1..]);
    }
  }

  // ---------- strtok_r(path, "/") ----------

  /** The leading token: everything before the first slash. */
  function Word(s: string): string {
    if s == "" || s[0] == '/' then "" else [s[0]] + Word(s[1..])
  }

  lemma {:induction false} WordPrefix(s: string)
    ensures |Word(s)| <= |s| && Word(s) == s[..|Word(s)|] && '/' !in Word(s)
    ensures Word(s) == s || s[|Word(s)|] == '/'
  {
    if s != "" && s[0] != '/' {
      WordPrefix(s[1..]);
    }
  }

  lemma {:induction false} WordOf(w: string, rest: string)
    requires '/' !in w && (rest == "" || rest[0] == '/')
    ensures Word(w + rest) == w
  {
    if w == "" {
      assert w + rest == rest;
    } else {
      assert (w + rest)[1..] == w[1..] + rest;
      WordOf(w[1..], rest);
    }
  }

  /** The tokens of a path. */
  function Tokens(s: string): seq<string>
    decreases |s|
  {
    if s == "" then []
    else if s[0] == '/' then Tokens(s[1..])
    else
      WordPrefix(s);
      [Word(s)] + Tokens(s[|Word(s)|..])
  }

  lemma {:induction false} TokensSnoc(s: string, name: string)
    requires GoodName(name)
    ensures Tokens(s + "/" + name) == Tokens(s) + [name]
    decreases |s|
  {
    var all := s + "/" + name;
    if s == "" {
      assert all[1..] == name == name + "";
      WordOf(name, "");
    } else if s[0] == '/' {
      assert all[1..] == s[1..] + "/" + name;
      TokensSnoc(s[1..], name);
    } else {
      var w := Word(s);
      WordPrefix(s);
      assert s[|w|..] == "" || s[|w|..][0] == '/';
      assert all == w + (s[|w|..] + "/" + name);
      WordOf(w, s[|w|..] + "/" + name);
      assert all[|w|..] == s[|w|..] + "/" + name;
      TokensSnoc(s[|w|..], name);
    }
  }

  lemma {:induction false} TokensOfSpell(t: Tree, s: seq<nat>)
    requires forall n | n in s :: GoodName(NameIn(t, n))
    ensures Tokens(Spell(t, s)) == NamesOf(t, s)
  {
    if s != [] {
      TokensOfSpell(t, s[1..]);
      TokensSnoc(Spell(t, s[1..]), NameIn(t, s[0]));
    }
  }

  lemma {:induction false} ClimbNamed(t: Tree, n: nat, c: seq<nat>)
    requires Linked(t) && Climb(t, n, c)
    ensures forall i | 0 <= i < |c| - 1 :: c[i] in t && t[c[i]].parent.Some?
    decreases |c|
  {
    if t[n].parent.Some? {
      ClimbNamed(t, t[n].parent.value, c[1..]);
      assert forall i | 1 <= i < |c| :: c[i] == c[1..][i - 1];
    }
  }

  /** The loop of `lookup_path_in_cache`. */
  method LookupPathInCache(index: Index, path: string) returns (ino: Option<nat>)
    ensures ino == Walk(index, ROOT, Tokens(path))
  {
    var node, rest := ROOT, path;
    while true
      invariant Walk(index, ROOT, Tokens(path)) == Walk(index, node, Tokens(rest))
      decreases |rest|
    {
      ghost var start := rest;
      while rest != "" && rest[0] == '/'
        invariant |rest| <= |start| && Walk(index, ROOT, Tokens(path)) == Walk(index, node, Tokens(rest))
        decreases |rest|
      {
        rest := rest[1..];
      }
      if rest == "" {
        return Some(node);
      }
      var element := Word(rest);
      WordPrefix(rest);
      if (node, element) !in index {
        return None;
      }
      assert Tokens(rest)[1..] == Tokens(rest[|element|..]);
      node, rest := index[(node, element)], rest[|element|..];
    }
  }

  /** The round trip of the two directions: for an attached node, a path leads to it in
      `lookup_path_in_cache` if and only if it has the tokens of the path that
      `try_get_path` builds for it. */
  lemma PathRoundTrip(index: Index, t: Tree, n: nat, c: seq<nat>, path: string)
    requires Linked(t) && Indexes(index, t) && GoodNames(t) && Attached(t, n, c)
    ensures Walk(index, ROOT, Tokens(path)) == Some(n) <==> Tokens(path) == Tokens(PathOf(t, c))
    ensures Walk(index, ROOT, Tokens(PathOf(t, c))) == Some(n)
  {
    var s := c[..|c| - 1];
    ClimbNamed(t, n, c);
    TokensOfSpell(t, s);
    assert Tokens("/") == Tokens("") == [];
    WalkFinds(index, t, n, c, Tokens(path));
    WalkFinds(index, t, n, c, NamesOf(t, s));
  }
}
