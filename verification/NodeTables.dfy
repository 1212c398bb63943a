/** The linear-hash tables of lib/fuse.c. `id_table` and `name_table` share one algorithm, which
    differs only in the raw hash of a key; a chain of nodes is a sequence of entries. */
module NodeTables {

  const NODE_TABLE_MIN_SIZE: nat := 8192

  datatype Entry<K, V> = Entry(key: K, node: V)

  datatype Lookup<V> = Missing | Present(node: V)

  // ---------- raw hashes ----------

  const WORD: nat := 0x1_0000_0000

  /** The raw part of `id_hash`: a 32-bit product that wraps. */
  function IdHash(ino: nat): nat {
    (ino % WORD * 2654435761) % WORD
  }

  /** The raw part of `name_hash`: a 64-bit polynomial over the name, seeded with the parent. */
  function NameHash(key: (nat, seq<bv8>)): nat {
    FoldName(key.0 % (WORD * WORD), key.1)
  }

  function FoldName(hash: nat, name: seq<bv8>): nat
    decreases |name|
  {
    if name == [] then hash else FoldName((hash * 31 + name[0] as nat) % (WORD * WORD), name[1..])
  }

  // ---------- the bucket of a key ----------

  /** The C operator `%` on unsigned operands, as repeated subtraction: the proofs about buckets
      then need no division. */
  function Rem(x: nat, m: nat): (r: nat)
    requires m > 0
    ensures r < m
    decreases x
  {
    if x < m then x else Rem(x - m, m)
  }

  /** It is the remainder: what is left is smaller than `m`, and `x` is that beyond a multiple. */
  lemma {:induction false} RemIsRemainder(x: nat, m: nat) returns (q: nat)
    requires m > 0
    ensures x == q * m + Rem(x, m)
    decreases x
  {
    if x < m {
      q := 0;
    } else {
      q := RemIsRemainder(x - m, m);
      q := q + 1;
    }
  }

  lemma {:induction false} RemTwice(x: nat, m: nat)
    requires m > 0
    ensures Rem(Rem(x, 2 * m), m) == Rem(x, m)
    ensures Rem(x, 2 * m) == Rem(x, m) || Rem(x, 2 * m) == Rem(x, m) + m
    decreases x
  {
    if x >= 2 * m {
      RemTwice(x - 2 * m, m);
      assert Rem(x, m) == Rem(x - m, m) == Rem(x - 2 * m, m);
    }
  }

  /** The common tail of `id_hash` and `name_hash`: buckets below `split` are already divided. */
  function Bucket(raw: nat, size: nat, split: nat): nat
    requires size >= 2
  {
    var hash := Rem(raw, size);
    var oldhash := Rem(hash, size / 2);
    if oldhash >= split then oldhash else hash
  }

  /** What `Bucket` is, read off the two candidate buckets of a key. */
  lemma BucketCases(raw: nat, half: nat, split: nat)
    requires half >= 1 && split <= half
    ensures Bucket(raw, 2 * half, split) ==
            if Rem(raw, half) >= split then Rem(raw, half) else Rem(raw, 2 * half)
    ensures Rem(raw, 2 * half) == Rem(raw, half) || Rem(raw, 2 * half) == Rem(raw, half) + half
    ensures Bucket(raw, 2 * half, split) < half + split
  {
    RemTwice(raw, half);
    assert 2 * half / 2 == half;
  }

  /** Doubling a fully divided table and halving an undivided one move no key. */
  lemma BucketResize(raw: nat, half: nat)
    requires half >= 1
    ensures Bucket(raw, 2 * half, half) == Bucket(raw, 2 * (2 * half), 0) == Rem(raw, 2 * half)
  {
    BucketCases(raw, half, half);
    BucketCases(raw, 2 * half, 0);
  }

  ghost predicate BucketDivided(raw: nat, half: nat, low: nat)
    requires half >= 1
  {
    var b, b' := Bucket(raw, 2 * half, low), Bucket(raw, 2 * half, low + 1);
    if b == low then b' in {low, low + half} else b' == b && b' != low + half
  }

  /** Advancing `split` past `low` divides the keys of bucket `low` and moves no other. */
  lemma BucketDivide(raw: nat, half: nat, low: nat)
    requires low < half
    ensures BucketDivided(raw, half, low)
  {
    BucketCases(raw, half, low);
    BucketCases(raw, half, low + 1);
  }

  /** Half the size of a table after so many doublings of the smallest one. */
  function HalfSize(level: nat): (n: nat)
    ensures 2 * n >= NODE_TABLE_MIN_SIZE
  {
    if level == 0 then NODE_TABLE_MIN_SIZE / 2 else 2 * HalfSize(level - 1)
  }

  /** The home bucket of every key. */
  ghost function Home<K>(raw: K -> nat, size: nat, split: nat): K -> nat
    requires size >= 2
  {
    k => Bucket(raw(k), size, split)
  }

  lemma HomeIsBucket<K(!new)>(raw: K -> nat, half: nat, split: nat)
    requires half >= 1 && split <= half
    ensures forall k :: Home(raw, 2 * half, split)(k) == Bucket(raw(k), 2 * half, split) < half + split
  {
    forall k ensures Home(raw, 2 * half, split)(k) == Bucket(raw(k), 2 * half, split) < half + split {
      BucketCases(raw(k), half, split);
    }
  }

  lemma HomeResize<K(!new)>(raw: K -> nat, half: nat)
    requires half >= 1
    ensures forall k :: Home(raw, 2 * half, half)(k) == Home(raw, 2 * (2 * half), 0)(k) < 2 * half
  {
    forall k ensures Home(raw, 2 * half, half)(k) == Home(raw, 2 * (2 * half), 0)(k) < 2 * half {
      BucketResize(raw(k), half);
    }
  }

  lemma HomeDivide<K(!new)>(raw: K -> nat, half: nat, low: nat)
    requires low < half
    ensures var home, home' := Home(raw, 2 * half, low), Home(raw, 2 * half, low + 1);
            forall k :: if home(k) == low then home'(k) in {low, low + half} else home'(k) == home(k)
    ensures var home, home' := Home(raw, 2 * half, low + 1), Home(raw, 2 * half, low);
            forall k :: home'(k) == if home(k) in {low, low + half} then low else home(k)
  {
    forall k ensures BucketDivided(raw(k), half, low) {
      BucketDivide(raw(k), half, low);
    }
    assert forall k: K :: BucketDivided(raw(k), half, low);
  }

  // ---------- chains and their contents ----------

  type Chains<K, V> = seq<seq<Entry<K, V>>>

  /** No key occurs twice in a chain. */
  ghost predicate DistinctKeys<K, V>(chain: seq<Entry<K, V>>) {
    forall i, j | 0 <= i < j < |chain| :: chain[i].key != chain[j].key
  }

  /** The first `size` chains hold exactly `contents`, each entry in the bucket that is its home. */
  ghost predicate Holds<K(!new), V>(t: Chains<K, V>, size: nat, home: K -> nat, contents: map<K, V>) {
    size <= |t| &&
    (forall b, e | 0 <= b < size && e in t[b] ::
       home(e.key) == b && e.key in contents && contents[e.key] == e.node) &&
    (forall k | k in contents :: home(k) < size && Entry(k, contents[k]) in t[home(k)]) &&
    forall b | 0 <= b < size :: DistinctKeys(t[b])
  }

  lemma HoldsInsert<K(!new), V>(t: Chains<K, V>, size: nat, home: K -> nat, contents: map<K, V>, k: K, v: V)
    requires Holds(t, size, home, contents) && k !in contents && home(k) < size
    ensures Holds(t[home(k) := [Entry(k, v)] + t[home(k)]], size, home, contents[k := v])
  {
    var b := home(k);
    var chain := [Entry(k, v)] + t[b];
    assert forall e :: e in chain <==> e == Entry(k, v) || e in t[b];
    assert DistinctKeys(chain) by {
      forall i, j | 0 <= i < j < |chain| ensures chain[i].key != chain[j].key {
        assert chain[j] == t[b][j - 1] && t[b][j - 1] in t[b];
        assert i > 0 ==> chain[i] == t[b][i - 1];
      }
    }
  }

  lemma HoldsLookup<K(!new), V>(t: Chains<K, V>, size: nat, home: K -> nat, contents: map<K, V>, k: K)
    requires Holds(t, size, home, contents) && home(k) < size
    ensures forall e | e in t[home(k)] && e.key == k :: k in contents && contents[k] == e.node
    ensures k in contents ==> Entry(k, contents[k]) in t[home(k)]
  {
  }

  lemma HoldsRemove<K(!new), V>(t: Chains<K, V>, size: nat, home: K -> nat, contents: map<K, V>, b: nat, i: nat)
    requires Holds(t, size, home, contents) && b < size && i < |t[b]|
    ensures Holds(t[b := t[b][..i] + t[b][i + 1..]], size, home, contents - {t[b][i].key})
  {
    var chain, k := t[b][..i] + t[b][i + 1..], t[b][i].key;
    assert t[b][i] in t[b];
    forall n | 0 <= n < |chain| ensures chain[n] == t[b][if n < i then n else n + 1] && chain[n] in t[b] {
    }
    forall e | e in t[b] && e.key != k ensures e in chain {
      var j :| 0 <= j < |t[b]| && t[b][j] == e;
      assert chain[if j < i then j else j - 1] == e;
    }
  }

  lemma RemoveOne<K, V>(m: map<K, V>, k: K)
    requires k in m
    ensures |m - {k}| == |m| - 1
  {
    assert m.Keys == (m - {k}).Keys + {k};
  }

  /** Another division of the same keys: if two homes agree on the contents, so do the chains. */
  lemma HoldsRehome<K(!new), V>(t: Chains<K, V>, size: nat, home: K -> nat, contents: map<K, V>,
                                t': Chains<K, V>, size': nat, home': K -> nat)
    requires Holds(t, size, home, contents)
    requires forall k :: home(k) == home'(k)
    requires size' <= |t'| && forall k | k in contents :: home(k) < size'
    requires forall b | 0 <= b < size && b < size' :: t'[b] == t[b]
    requires forall b | size <= b < size' :: t'[b] == []
    ensures Holds(t', size', home', contents)
  {
  }

  /** The state of a rehash of `chain` with cursor `j`: `low` and `high` share out its entries,
      `high` and the part of `low` before the cursor have found their homes. */
  ghost predicate Dividing<K(!new), V>(chain: seq<Entry<K, V>>, low: seq<Entry<K, V>>, high: seq<Entry<K, V>>,
                                       j: nat, home': K -> nat, lower: nat, upper: nat) {
    j <= |low| &&
    (forall e | e in chain :: e in low || e in high) &&
    (forall e | e in low :: e in chain) &&
    (forall e | e in high :: e in chain) &&
    (forall e | e in high :: home'(e.key) == upper) &&
    (forall i | 0 <= i < j :: home'(low[i].key) == lower) &&
    DistinctKeys(low) && DistinctKeys(high) &&
    forall e, f | e in low && f in high :: e.key != f.key
  }

  lemma DivideStart<K(!new), V>(t: Chains<K, V>, size: nat, home: K -> nat, contents: map<K, V>, lower: nat,
                                home': K -> nat, upper: nat)
    requires Holds(t, size, home, contents) && lower < size
    ensures Dividing(t[lower], t[lower], [], 0, home', lower, upper)
    ensures forall e | e in t[lower] :: home(e.key) == lower
  {
  }

  lemma DivideCursor<K(!new), V>(chain: seq<Entry<K, V>>, low: seq<Entry<K, V>>, high: seq<Entry<K, V>>,
                                 j: nat, home: K -> nat, home': K -> nat, lower: nat, upper: nat)
    requires Dividing(chain, low, high, j, home', lower, upper) && j < |low|
    requires forall e | e in chain :: home(e.key) == lower
    requires forall k :: if home(k) == lower then home'(k) in {lower, upper} else home'(k) == home(k)
    ensures home'(low[j].key) in {lower, upper}
    ensures home'(low[j].key) == lower ==> Dividing(chain, low, high, j + 1, home', lower, upper)
  {
    assert low[j] in low;
  }

  /** Moving the entry at the cursor to the head of the upper chain. */
  lemma DivideMove<K(!new), V>(chain: seq<Entry<K, V>>, low: seq<Entry<K, V>>, high: seq<Entry<K, V>>,
                               j: nat, home': K -> nat, lower: nat, upper: nat)
    requires Dividing(chain, low, high, j, home', lower, upper)
    requires j < |low| && home'(low[j].key) == upper
    ensures Dividing(chain, low[..j] + low[j + 1..], [low[j]] + high, j, home', lower, upper)
  {
    var low', high' := low[..j] + low[j + 1..], [low[j]] + high;
    assert low[j] in low;
    forall i | 0 <= i < |low'| ensures low'[i] == low[if i < j then i else i + 1] && low'[i] in low {
    }
    forall e | e in low ensures e == low[j] || e in low' {
      var i :| 0 <= i < |low| && low[i] == e;
      assert i < j ==> low'[i] == e;
      assert i > j ==> low'[i - 1] == e;
    }
    forall i, n | 0 <= i < n < |high'| ensures high'[i].key != high'[n].key {
      assert high'[n] in high;
      assert i > 0 ==> high'[i] == high[i - 1] && high'[n] == high[n - 1];
    }
    forall e, f | e in low' && f in high' ensures e.key != f.key {
      var i :| 0 <= i < |low'| && low'[i] == e;
      assert f == low[j] || f in high;
    }
  }

  lemma HoldsDivide<K(!new), V>(t: Chains<K, V>, size: nat, home: K -> nat, contents: map<K, V>, lower: nat, upper: nat,
                                low: seq<Entry<K, V>>, high: seq<Entry<K, V>>, home': K -> nat)
    requires Holds(t, size, home, contents) && lower < upper < size
    requires forall k :: if home(k) == lower then home'(k) in {lower, upper} else home'(k) == home(k)
    requires t[upper] == [] && Dividing(t[lower], low, high, |low|, home', lower, upper)
    ensures Holds(t[lower := low][upper := high], size, home', contents)
  {
    forall k | k in contents ensures Entry(k, contents[k]) in t[lower := low][upper := high][home'(k)] {
      var e := Entry(k, contents[k]);
      assert e in t[home(k)];
      if home(k) == lower && e in low {
        var i :| 0 <= i < |low| && low[i] == e;
      }
    }
  }

  /** Appending a divided bucket to its lower half. */
  lemma HoldsMerge<K(!new), V>(t: Chains<K, V>, size: nat, home: K -> nat, contents: map<K, V>, lower: nat, upper: nat,
                               home': K -> nat)
    requires Holds(t, size, home, contents) && lower < upper < size
    requires forall k :: home'(k) == if home(k) in {lower, upper} then lower else home(k)
    ensures Holds(t[lower := t[lower] + t[upper]][upper := []], size, home', contents)
  {
    var chain := t[lower] + t[upper];
    forall i, j | 0 <= i < j < |chain| ensures chain[i].key != chain[j].key {
      if i < |t[lower]| <= j {
        assert t[lower][i] in t[lower] && t[upper][j - |t[lower]|] in t[upper];
      }
    }
  }

  // ---------- shrinking ----------

  /** The chains hold the contents, with the buckets below `split` divided; `half` is half the size,
      which is a power of two times the minimum. */
  ghost predicate TableOk<K(!new), V>(raw: K -> nat, buckets: Chains<K, V>, size: nat, half: nat, split: nat,
                                      level: nat, contents: map<K, V>) {
    half == HalfSize(level) && size == 2 * half && split <= half && size <= |buckets| &&
    Holds(buckets, size, Home(raw, size, split), contents) &&
    forall b | half + split <= b < size :: buckets[b] == []
  }

  /** Halving a table without divided buckets */
  lemma Halves<K(!new), V>(raw: K -> nat, t: Chains<K, V>, size: nat, half: nat, level: nat, contents: map<K, V>,
                           t': Chains<K, V>)
    requires TableOk(raw, t, size, half, 0, level, contents) && half >= NODE_TABLE_MIN_SIZE
    requires t' == t || t' == t[..half]
    ensures level > 0 && half == 2 * (half / 2) && TableOk(raw, t', half, half / 2, half / 2, level - 1, contents)
  {
    var quarter := HalfSize(level - 1);
    assert half == 2 * quarter && half / 2 == quarter;
    hide HalfSize, Holds, Home;
    HomeResize(raw, quarter);
    HoldsRehome(t, size, Home(raw, size, 0), contents, t', half, Home(raw, half, quarter));
  }

  /** Half the size and `split` after `node_table_reduce`, which is called when no bucket is divided. */
  function Reduced(half: nat, split: nat): (nat, nat) {
    if split == 0 && half >= NODE_TABLE_MIN_SIZE then (half / 2, half / 2) else (half, split)
  }

  predicate EmptyFrom<E>(buckets: seq<seq<E>>, lo: nat, hi: nat) {
    forall b | lo <= b < hi && b < |buckets| :: buckets[b] == []
  }

  /** Which divided buckets a shrinking step folds back: from `from` down to `to`, which are at most
      eight and only the last may hold something; it stops early only at the first or at such a one. */
  predicate Folded<E>(buckets: seq<seq<E>>, half: nat, from: nat, to: nat) {
    half + from <= |buckets| && to <= from <= to + 8 && (from > 0 ==> to < from) &&
    EmptyFrom(buckets, half + to + 1, half + from) &&
    (to > 0 && from < to + 8 ==> buckets[to + half] != [])
  }

  lemma FoldedPrefix<E>(buckets: seq<seq<E>>, prefix: seq<seq<E>>, half: nat, from: nat, to: nat)
    requires Folded(prefix, half, from, to) && prefix <= buckets
    ensures Folded(buckets, half, from, to) && to <= from && (from > 0 ==> to < from)
  {
    assert forall b | 0 <= b < |prefix| :: buckets[b] == prefix[b];
  }

  // ---------- the table ----------

  class NodeTable<K(!new, ==), V(==)> {
    const raw: K -> nat
    var buckets: seq<seq<Entry<K, V>>>
    var use: nat
    var size: nat
    var split: nat
    ghost var level: nat           // how often the table was doubled
    ghost var half: nat            // half the size, without the rounding of `/`
    ghost var contents: map<K, V>  // the abstract value
    ghost var leaving: nat         // entries unlinked but not yet subtracted from `use`

    ghost predicate Valid()
      reads this
    {
      TableOk(raw, buckets, size, half, split, level, contents) && use == |contents| + leaving
    }

    /** Fewer entries than active buckets: the load that makes a lookup take constant time. */
    ghost predicate Balanced()
      reads this
    {
      use < half + split && split < half
    }

    constructor (raw: K -> nat)
      ensures Valid() && Balanced() && contents == map[] && leaving == 0 && this.raw == raw
    {
      this.raw := raw;
      size := NODE_TABLE_MIN_SIZE;
      buckets := seq(NODE_TABLE_MIN_SIZE, i => []);
      use, split := 0, 0;
      level, half := 0, NODE_TABLE_MIN_SIZE / 2;
      contents, leaving := map[], 0;
    }

    /** `get_node_nocheck` and `lookup_node`. */
    method Find(k: K) returns (r: Lookup<V>)
      requires Valid()
      ensures r == if k in contents then Present(contents[k]) else Missing
    {
      hide Holds, Home, Bucket, HalfSize;
      HomeIsBucket(raw, half, split);
      HoldsLookup(buckets, size, Home(raw, size, split), contents, k);
      var chain := buckets[Bucket(raw(k), size, split)];
      var i := 0;
      while i < |chain|
        invariant 0 <= i <= |chain|
        invariant forall j | 0 <= j < i :: chain[j].key != k
      {
        if chain[i].key == k {
          assert chain[i] in chain;
          return Present(chain[i].node);
        }
        i := i + 1;
      }
      return Missing;
    }

    /** `hash_id` and the table part of `hash_name`. `memory` is what a `realloc` reports. */
    method Insert(k: K, v: V, memory: bool)
      requires Valid() && k !in contents
      modifies this
      ensures Valid() && contents == old(contents)[k := v]
      ensures use == old(use) + 1 && leaving == old(leaving)
      ensures old(Balanced()) && memory ==> Balanced()
    {
      hide Holds, Home, Bucket, HalfSize;
      HomeIsBucket(raw, half, split);
      var hash := Bucket(raw(k), size, split);
      HoldsInsert(buckets, size, Home(raw, size, split), contents, k, v);
      buckets := buckets[hash := [Entry(k, v)] + buckets[hash]];
      contents := contents[k := v];
      use := use + 1;
      if use >= size / 2 {
        Rehash(memory);
      }
    }

    /** `rehash_id`, `rehash_name`: divides the next bucket, then doubles the table if it was
        the last one. */
    method Rehash(memory: bool)
      requires Valid()
      modifies this
      ensures Valid() && contents == old(contents) && use == old(use) && leaving == old(leaving)
      ensures if old(split == half) then half == old(half) && split == old(split)
              else if old(split + 1 == half) && memory then half == 2 * old(half) && split == 0
              else half == old(half) && split == old(split) + 1
    {
      hide Holds, Home, Bucket;
      if split == size / 2 {
        return;
      }
      split := split + 1;
      Divide(split - 1);
      if split == size / 2 {
        Resize(memory);
      }
    }

    /** The loop of `rehash_id` and `rehash_name`: entries of bucket `hash` whose bucket is now the
        upper one move to the head of that chain. */
    method Divide(hash: nat)
      requires half >= 1 && size == 2 * half && split == hash + 1 && split <= half && size <= |buckets|
      requires Holds(buckets, size, Home(raw, size, hash), contents) && buckets[hash + half] == []
      modifies this`buckets
      ensures Holds(buckets, size, Home(raw, size, split), contents) && |buckets| == |old(buckets)|
      ensures forall b | hash + half < b < size :: buckets[b] == old(buckets[b])
    {
      hide Holds, Home, HalfSize;
      ghost var upper, home, t := hash + half, Home(raw, size, hash), buckets;
      ghost var home' := Home(raw, size, split);
      HomeDivide(raw, half, hash);
      HomeIsBucket(raw, half, split);
      DivideStart(buckets, size, home, contents, hash, home', upper);
      hide Bucket, Dividing;
      var j := 0;
      while j < |buckets[hash]|
        invariant |buckets| == |t| && buckets == t[hash := buckets[hash]][upper := buckets[upper]]
        invariant j <= |buckets[hash]|
        invariant Dividing(t[hash], buckets[hash], buckets[upper], j, home', hash, upper)
        decreases |buckets[hash]| - j
      {
        var e := buckets[hash][j];
        DivideCursor(t[hash], buckets[hash], buckets[upper], j, home, home', hash, upper);
        var newhash := Bucket(raw(e.key), size, split);
        if newhash != hash {
          DivideMove(t[hash], buckets[hash], buckets[upper], j, home', hash, upper);
          buckets := buckets[hash := buckets[hash][..j] + buckets[hash][j + 1..]];
          buckets := buckets[newhash := [e] + buckets[newhash]];
        } else {
          j := j + 1;
        }
      }
      HoldsDivide(t, size, home, contents, hash, upper, buckets[hash], buckets[upper], home');
    }

    /** `node_table_resize`: doubles the array; nothing changes when `realloc` fails. */
    method Resize(memory: bool)
      requires Valid() && split == half
      modifies this
      ensures Valid() && contents == old(contents) && use == old(use) && leaving == old(leaving)
      ensures memory ==> half == 2 * old(half) && split == 0
      ensures !memory ==> half == old(half) && split == old(split)
    {
      hide Holds, Home, Bucket;
      if !memory {
        return;
      }
      var newbuckets := buckets[..size] + seq(size, i => []);
      HomeResize(raw, half);
      HoldsRehome(buckets, size, Home(raw, size, split), contents, newbuckets, 2 * size, Home(raw, 2 * size, 0));
      buckets := newbuckets;
      size, half, level := 2 * size, size, level + 1;
      split := 0;
    }

    /** The search and unlinking in `unhash_id` and `unhash_name`. */
    method Unlink(k: K, v: V) returns (found: bool)
      requires Valid()
      modifies this`buckets, this`contents, this`leaving
      ensures Valid() && found == (k in old(contents) && old(contents)[k] == v)
      ensures contents == if found then old(contents) - {k} else old(contents)
      ensures leaving == old(leaving) + if found then 1 else 0
    {
      hide Holds, Home, Bucket, HalfSize;
      HomeIsBucket(raw, half, split);
      var b := Bucket(raw(k), size, split);
      HoldsLookup(buckets, size, Home(raw, size, split), contents, k);
      var chain := buckets[b];
      var i := 0;
      while i < |chain|
        invariant 0 <= i <= |chain|
        invariant forall j | 0 <= j < i :: chain[j] != Entry(k, v)
      {
        if chain[i] == Entry(k, v) {
          assert chain[i] in chain;
          HoldsRemove(buckets, size, Home(raw, size, split), contents, b, i);
          buckets := buckets[b := chain[..i] + chain[i + 1..]];
          RemoveOne(contents, k);
          contents := contents - {k};
          leaving := leaving + 1;
          return true;
        }
        i := i + 1;
      }
      return false;
    }

    /** The accounting after an unlink: one entry fewer, and a sparse table shrinks. */
    method Subtract(memory: bool)
      requires Valid() && leaving > 0
      modifies this
      ensures Valid() && contents == old(contents)
      ensures use == old(use) - 1 && leaving == old(leaving) - 1
      ensures old(Balanced()) ==> Balanced()
    {
      use := use - 1;
      leaving := leaving - 1;
      if use < size / 4 {
        Remerge(memory);
      }
    }

    /** `remerge_id`, `remerge_name`: halves an undivided table, then folds back divided buckets,
        at most eight and not beyond the first one that is not empty. */
    method Remerge(memory: bool)
      requires Valid()
      modifies this
      ensures Valid() && contents == old(contents) && use == old(use) && leaving == old(leaving)
      ensures old(Balanced()) && use < old(size) / 4 ==> Balanced()
      ensures half == old(Reduced(half, split)).0
      ensures Folded(old(buckets), half, old(Reduced(half, split)).1, split)
    {
      hide Holds, Home, Bucket, HalfSize, Folded;
      if split == 0 {
        Reduce(memory);
      }
      ghost var from, was := split, buckets;
      FoldSome();
      FoldedPrefix(old(buckets), was, half, from, split);
    }

    /** The loop of `remerge_id` and `remerge_name` */
    method FoldSome()
      requires Valid()
      modifies this`split, this`buckets
      ensures Valid() && Folded(old(buckets), half, old(split), split)
    {
      hide Holds, Home, Bucket, HalfSize;
      var iter := 8;
      while split > 0 && iter > 0
        invariant Valid() && iter <= 8 && split + 8 == old(split) + iter && buckets == old(buckets)
        invariant EmptyFrom(buckets, half + split, half + old(split))
        decreases iter
      {
        var moved := FoldBack();
        if moved {
          break;
        }
        iter := iter - 1;
      }
    }

    /** One round of the remerge loop: the last divided bucket joins its lower half. */
    method FoldBack() returns (moved: bool)
      requires Valid() && split > 0
      modifies this`split, this`buckets
      ensures Valid() && split == old(split) - 1
      ensures moved <==> old(buckets[split - 1 + half]) != []
      ensures !moved ==> buckets == old(buckets)
    {
      hide Holds, Home, Bucket, HalfSize;
      ghost var home := Home(raw, size, split);
      split := split - 1;
      var upper := split + size / 2;
      ghost var home' := Home(raw, size, split);
      HomeDivide(raw, half, split);
      HoldsMerge(buckets, size, home, contents, split, upper, home');
      moved := buckets[upper] != [];
      if moved {
        buckets := buckets[split := buckets[split] + buckets[upper]][upper := []];
      } else {
        assert buckets[split] + buckets[upper] == buckets[split];
        assert buckets == buckets[split := buckets[split] + buckets[upper]][upper := []];
      }
    }

    /** `node_table_reduce`: halves the table, but not below its minimum size. */
    method Reduce(memory: bool)
      requires Valid() && split == 0
      modifies this
      ensures Valid() && contents == old(contents) && use == old(use) && leaving == old(leaving)
      ensures (half, split) == old(Reduced(half, 0)) && (half == old(half) || 2 * half == old(half)) &&
        2 * half <= |buckets|
      ensures buckets <= old(buckets) && (half == old(half) ==> buckets == old(buckets))
    {
      hide Holds, Home, Bucket;
      var newsize := size / 2;
      if newsize < NODE_TABLE_MIN_SIZE {
        return;
      }
      assert newsize == half;
      var newbuckets := if memory then buckets[..newsize] else buckets;
      Halves(raw, buckets, size, half, level, contents, newbuckets);
      hide TableOk;
      buckets := newbuckets;
      size, half, level := newsize, half / 2, level - 1;
      split := size / 2;
    }
  }

  /** The two tables of a mounted filesystem. */
  method NewTables<V(==)>() returns (ids: NodeTable<nat, V>, names: NodeTable<(nat, seq<bv8>), V>)
    ensures fresh(ids) && ids.Valid() && ids.raw == IdHash && ids.contents == map[]
    ensures fresh(names) && names.Valid() && names.raw == NameHash && names.contents == map[]
  {
    ids := new NodeTable<nat, V>(IdHash);
    names := new NodeTable<(nat, seq<bv8>), V>(NameHash);
  }
}
