/** The slab allocator for nodes (lib/fuse.c): a page holds a header and cells; a slab is on the
    list of partial slabs as long as it has a free cell, and its page goes back with its last node. */
module Slabs {
  import opened Lists
  import opened Wrappers

  lemma {:induction false} Multiples(a: nat, b: nat, n: nat)
    requires a < b
    ensures a * n + n <= b * n
  {
    if a + 1 < b {
      Multiples(a, b - 1, n);
      assert b * n == (b - 1) * n + n;
    } else {
      assert (a + 1) * n == a * n + n;
    }
  }

  lemma Remainder(k: nat, d: nat, n: nat)
    requires d < n
    ensures (k * n + d) % n == d
  {
    var x := k * n + d;
    var q, r := x / n, x % n;
    assert x == q * n + r && 0 <= r < n;
    if q > k {
      Multiples(k, q, n);
    } else if q < k {
      Multiples(q, k, n);
    }
  }

  // ---------- masks ----------

  function Pow2(k: nat): (n: nat)
    ensures n > 0
  {
    if k == 0 then 1 else 2 * Pow2(k - 1)
  }

  /** The C operator `&` */
  function And(x: nat, y: nat): nat {
    if x == 0 || y == 0 then 0 else 2 * And(x / 2, y / 2) + (x % 2) * (y % 2)
  }

  /** The C operator `~` on a word of `w` bits */
  function Not(x: nat, w: nat): nat
    requires x < Pow2(w)
  {
    Pow2(w) - 1 - x
  }

  lemma {:induction false} AndAll(x: nat, w: nat)
    requires x < Pow2(w)
    ensures And(x, Pow2(w) - 1) == x
  {
    if w > 0 && x > 0 {
      assert (Pow2(w) - 1) / 2 == Pow2(w - 1) - 1 && (Pow2(w) - 1) % 2 == 1;
      AndAll(x / 2, w - 1);
    }
  }

  lemma {:induction false} Pow2Grows(k: nat, w: nat)
    requires k <= w
    ensures Pow2(k) <= Pow2(w)
  {
    if k < w {
      Pow2Grows(k, w - 1);
    }
  }

  lemma AndEven(x: nat, h: nat)
    ensures And(x, 2 * h) == 2 * And(x / 2, h)
  {
    if x != 0 && h != 0 {
      assert 2 * h % 2 == 0 && 2 * h / 2 == h;
    }
  }

  lemma Pow2Step(k: nat)
    requires k > 0
    ensures Pow2(k) == 2 * Pow2(k - 1)
  {
  }

  lemma Twice(q: nat, n: nat)
    ensures q * (2 * n) == 2 * (q * n)
  {
  }

  /** Masking the low k bits gives the multiple of 2^k at or below. */
  lemma {:induction false} AndMask(x: nat, k: nat, w: nat) returns (q: nat)
    requires k <= w && x < Pow2(w)
    ensures Pow2(k) <= Pow2(w)
    ensures var r := And(x, Not(Pow2(k) - 1, w)); r == q * Pow2(k) && r <= x < r + Pow2(k)
    decreases k
  {
    Pow2Grows(k, w);
    if k == 0 {
      AndAll(x, w);
      q := x;
    } else {
      hide And, Pow2;
      Pow2Step(k);
      Pow2Step(w);
      Pow2Grows(k - 1, w - 1);
      q := AndMask(x / 2, k - 1, w - 1);
      AndEven(x, Pow2(w - 1) - Pow2(k - 1));
      Twice(q, Pow2(k - 1));
    }
  }

  // ---------- the cells of a page ----------

  /** The page size, sizeof(struct node_slab) and the size of a node */
  datatype Sizes = Sizes(page: nat, header: nat, node: nat) {
    predicate Ok() {
      0 < header && 0 < node && header + node <= page
    }

    /** How many cells fit behind the header; one more does not. */
    function Count(): (n: nat)
      requires Ok()
      ensures n >= 1 && n * node <= page - header < (n + 1) * node
    {
      CountOk();
      (page - header) / node
    }

    lemma CountOk()
      requires Ok()
      ensures var n := (page - header) / node; n >= 1 && n * node <= page - header < (n + 1) * node
    {
    }

    /** The cells fill the end of the page. */
    function Cell(base: nat, i: nat): nat
      requires Ok() && i < Count()
    {
      base + (page - Count() * node) + i * node
    }

    function Cells(base: nat): set<nat>
      requires Ok()
    {
      set i | 0 <= i < Count() :: Cell(base, i)
    }

    /** `node_to_slab`: the address with its low bits masked, for a page size that is a power of two */
    function SlabOf(x: nat): (base: nat)
      requires Ok()
      ensures base <= x
    {
      x - x % page
    }

    /** With a page size that is a power of two, the mask of `node_to_slab` is this. */
    lemma MaskIsSlabOf(x: nat, k: nat, w: nat)
      requires Ok() && page == Pow2(k) && k <= w && x < Pow2(w)
      ensures page - 1 < Pow2(w) && And(x, Not(page - 1, w)) == SlabOf(x)
    {
      var q := AndMask(x, k, w);
      Remainder(q, x - q * page, page);
    }

    /** Cells lie behind the header and inside the page, and do not overlap. */
    lemma CellsApart(base: nat, i: nat, j: nat)
      requires Ok() && i < Count() && j < Count()
      ensures base + header <= Cell(base, i) && Cell(base, i) + node <= base + page
      ensures i < j ==> Cell(base, i) + node <= Cell(base, j)
    {
      Multiples(i, Count(), node);
      if i < j {
        Multiples(i, j, node);
      }
    }

    /** Masking the address of a cell gives its slab. */
    lemma MaskFindsSlab(k: nat, i: nat)
      requires Ok() && i < Count()
      ensures SlabOf(Cell(k * page, i)) == k * page
    {
      CellsApart(k * page, i, i);
      Remainder(k, Cell(k * page, i) - k * page, page);
    }
  }

  /** `struct node_slab`: the free cells in list order, and the number of the others */
  datatype Slab = Slab(free: seq<nat>, used: nat)

  type Slabs = map<nat, Slab>

  function LiveIn(z: Sizes, live: set<nat>, base: nat): set<nat>
    requires z.Ok()
  {
    set x | x in live && z.SlabOf(x) == base
  }

  /** Every cell is free or live, not both; `used` counts the live ones. */
  ghost predicate SlabOk(z: Sizes, base: nat, slab: Slab, live: set<nat>)
    requires z.Ok()
  {
    base % z.page == 0 && Distinct(slab.free) &&
    (forall x | x in slab.free :: x in z.Cells(base) && x !in live) &&
    (forall x | x in z.Cells(base) :: x in slab.free || x in live) &&
    slab.used == |LiveIn(z, live, base)| && slab.used + |slab.free| == z.Count()
  }

  ghost predicate AllOk(z: Sizes, slabs: Slabs, live: set<nat>)
    requires z.Ok()
  {
    (forall base | base in slabs :: SlabOk(z, base, slabs[base], live)) &&
    forall x | x in live :: z.SlabOf(x) in slabs && x in z.Cells(z.SlabOf(x))
  }

  /** A slab is partial if and only if it has a free cell. */
  ghost predicate Listed(slabs: Slabs, partial: seq<nat>, full: seq<nat>) {
    Distinct(partial) && Distinct(full) &&
    (forall base :: base in partial <==> base in slabs && slabs[base].free != []) &&
    forall base :: base in full <==> base in slabs && slabs[base].free == []
  }

  lemma CellsMask(z: Sizes, base: nat)
    requires z.Ok() && base % z.page == 0
    ensures forall x | x in z.Cells(base) :: z.SlabOf(x) == base
  {
    forall x | x in z.Cells(base) ensures z.SlabOf(x) == base {
      var i :| 0 <= i < z.Count() && z.Cell(base, i) == x;
      assert base == base / z.page * z.page;
      z.MaskFindsSlab(base / z.page, i);
    }
  }

  /** A cell that is handed out was free, and no other slab notices. */
  lemma TakeOk(z: Sizes, slabs: Slabs, live: set<nat>, base: nat)
    requires z.Ok() && AllOk(z, slabs, live) && base in slabs && slabs[base].free != []
    ensures slabs[base].free[0] !in live && slabs[base].free[0] in z.Cells(base)
    ensures z.SlabOf(slabs[base].free[0]) == base
    ensures AllOk(z, slabs[base := Slab(slabs[base].free[1..], slabs[base].used + 1)], live + {slabs[base].free[0]})
  {
    var x, live' := slabs[base].free[0], live + {slabs[base].free[0]};
    var slabs' := slabs[base := Slab(slabs[base].free[1..], slabs[base].used + 1)];
    hide SlabOk, LiveIn, Sizes.SlabOf, Sizes.Cells, Sizes.Count, Sizes.Cell;
    FirstFree(z, base, slabs[base], live);
    TakeThere(z, base, slabs[base], live);
    forall b | b in slabs' && b != base ensures SlabOk(z, b, slabs'[b], live') {
      TakeElsewhere(z, b, slabs[b], live, x);
    }
  }

  lemma FirstFree(z: Sizes, base: nat, slab: Slab, live: set<nat>)
    requires z.Ok() && SlabOk(z, base, slab, live) && slab.free != []
    ensures slab.free[0] !in live && slab.free[0] in z.Cells(base) && z.SlabOf(slab.free[0]) == base
  {
    CellsMask(z, base);
    assert slab.free[0] in slab.free;
  }

  lemma TakeThere(z: Sizes, base: nat, slab: Slab, live: set<nat>)
    requires z.Ok() && SlabOk(z, base, slab, live) && slab.free != [] && z.SlabOf(slab.free[0]) == base
    ensures SlabOk(z, base, Slab(slab.free[1..], slab.used + 1), live + {slab.free[0]})
  {
    var x := slab.free[0];
    assert LiveIn(z, live + {x}, base) == LiveIn(z, live, base) + {x};
    forall y | y in z.Cells(base) ensures y in slab.free[1..] || y in live + {x} {
      if y in slab.free && y != x {
        var i :| 0 <= i < |slab.free| && slab.free[i] == y;
        assert slab.free[1..][i - 1] == y;
      }
    }
  }

  lemma TakeElsewhere(z: Sizes, b: nat, slab: Slab, live: set<nat>, x: nat)
    requires z.Ok() && SlabOk(z, b, slab, live) && z.SlabOf(x) != b
    ensures SlabOk(z, b, slab, live + {x}) && SlabOk(z, b, slab, live - {x})
  {
    CellsMask(z, b);
    assert LiveIn(z, live + {x}, b) == LiveIn(z, live, b) == LiveIn(z, live - {x}, b);
  }

  /** A node that is given back becomes the first free cell of its slab. */
  lemma GiveOk(z: Sizes, slabs: Slabs, live: set<nat>, x: nat)
    requires z.Ok() && AllOk(z, slabs, live) && x in live
    ensures var base := z.SlabOf(x);
      base in slabs && x in z.Cells(base) && slabs[base].used > 0 && slabs[base].used == |LiveIn(z, live, base)| &&
      AllOk(z, slabs[base := Slab([x] + slabs[base].free, slabs[base].used - 1)], live - {x})
  {
    hide SlabOk, LiveIn, Sizes.SlabOf, Sizes.Cells, Sizes.Count, Sizes.Cell;
    var base, live' := z.SlabOf(x), live - {x};
    assert x in z.Cells(base);
    GiveThere(z, base, slabs[base], live, x);
    var slabs' := slabs[base := Slab([x] + slabs[base].free, slabs[base].used - 1)];
    forall b | b in slabs' && b != base ensures SlabOk(z, b, slabs'[b], live') {
      TakeElsewhere(z, b, slabs[b], live, x);
    }
  }

  lemma GiveThere(z: Sizes, base: nat, slab: Slab, live: set<nat>, x: nat)
    requires z.Ok() && SlabOk(z, base, slab, live) && x in live && z.SlabOf(x) == base && x in z.Cells(base)
    ensures slab.used > 0 && slab.used == |LiveIn(z, live, base)|
    ensures SlabOk(z, base, Slab([x] + slab.free, slab.used - 1), live - {x})
  {
    StillUsed(z, live, x);
    assert x in LiveIn(z, live, base);
    hide LiveIn;
    assert forall y :: y in [x] + slab.free <==> y == x || y in slab.free;
    assert x !in slab.free;
  }

  /** A slab without live cells can go. */
  lemma UnmapOk(z: Sizes, slabs: Slabs, live: set<nat>, base: nat)
    requires z.Ok() && AllOk(z, slabs, live) && base in slabs && slabs[base].used == 0
    ensures AllOk(z, slabs - {base}, live) && forall x | x in live :: z.SlabOf(x) != base
  {
    assert SlabOk(z, base, slabs[base], live);
    forall x | x in live ensures z.SlabOf(x) != base {
      assert z.SlabOf(x) == base ==> x in LiveIn(z, live, base);
    }
    assert forall b | b in slabs - {base} :: SlabOk(z, b, slabs[b], live);
  }

  /** A fresh page becomes a slab whose cells are all free. */
  lemma MapOk(z: Sizes, slabs: Slabs, live: set<nat>, base: nat, free: seq<nat>)
    requires z.Ok() && AllOk(z, slabs, live) && base % z.page == 0 && base !in slabs
    requires |free| == z.Count() && forall i | 0 <= i < |free| :: free[i] == z.Cell(base, i)
    ensures AllOk(z, slabs[base := Slab(free, 0)], live)
  {
    CellsMask(z, base);
    forall i, j | 0 <= i < j < |free| ensures free[i] != free[j] {
      z.CellsApart(base, i, j);
    }
    forall x | x in z.Cells(base) ensures x in free && x !in live {
      var i :| 0 <= i < z.Count() && z.Cell(base, i) == x;
      assert free[i] == x;
    }
    assert LiveIn(z, live, base) == {};
    assert SlabOk(z, base, Slab(free, 0), live);
  }

  // ---------- the allocator ----------

  class NodeSlabs {
    const z: Sizes
    var slabs: Slabs
    var partial: seq<nat>
    var full: seq<nat>
    ghost var live: set<nat>     // the nodes that have been handed out

    ghost predicate Valid()
      reads this
    {
      z.Ok() && AllOk(z, slabs, live) && Listed(slabs, partial, full) && forall base | base in slabs ::
          slabs[base].used > 0
    }

    constructor (z: Sizes)
      requires z.Ok()
      ensures Valid() && live == {} && slabs == map[] && this.z == z
    {
      this.z, slabs, partial, full, live := z, map[], [], [], {};
    }

    /** `alloc_slab`; `mem` is the page that mmap returns, which is aligned and was not mapped. */
    method AllocSlab(mem: Option<nat>) returns (ok: bool)
      requires z.Ok() && AllOk(z, slabs, live) && Listed(slabs, partial, full)
      requires mem.Some? ==> mem.value % z.page == 0 && mem.value !in slabs
      modifies this`slabs, this`partial
      ensures ok == mem.Some? && (!ok ==> slabs == old(slabs) && partial == old(partial))
      ensures AllOk(z, slabs, live) && Listed(slabs, partial, full)
      ensures ok ==>
        mem.value in slabs && slabs == old(slabs)[mem.value := slabs[mem.value]] && slabs[mem.value].used == 0
      ensures ok ==> partial == old(partial) + [mem.value]
    {
      hide AllOk;
      if mem.None? {
        return false;
      }
      var num := z.Count();
      var start := mem.value + (z.page - num * z.node);
      var free: seq<nat> := [];
      for i := 0 to num
        invariant |free| == i && forall j | 0 <= j < i :: free[j] == z.Cell(mem.value, j)
      {
        free := free + [start + i * z.node];
      }
      MapOk(z, slabs, live, mem.value, free);
      slabs := slabs[mem.value := Slab(free, 0)];
      partial := partial + [mem.value];
      return true;
    }

    /** `alloc_node`: a cell that no one has */
    method AllocNode(mem: Option<nat>) returns (node: Option<nat>)
      requires Valid() && (mem.Some? ==> mem.value % z.page == 0 && mem.value !in slabs)
      modifies this
      ensures Valid()
      ensures node.None? <==> old(partial) == [] && mem.None?
      ensures node.None? ==> live == old(live) && slabs == old(slabs)
      ensures node.Some? ==>
        node.value !in old(live) && live == old(live) + {node.value} && node.value in z.Cells(z.SlabOf(node.value))
      ensures node.Some? ==> slabs.Keys == old(slabs).Keys + if old(partial) == [] then {mem.value} else {}
    {
      hide AllOk, Listed;
      if partial == [] {
        var ok := AllocSlab(mem);
        if !ok {
          return None;
        }
      }
      var base := partial[0];
      Shrunk(slabs, partial, full, Slab([], 0));
      var slab := slabs[base];
      Shrunk(slabs, partial, full, Slab(slab.free[1..], slab.used + 1));
      TakeOk(z, slabs, live, base);
      var cell := slab.free[0];
      live := live + {cell};
      slabs := slabs[base := Slab(slab.free[1..], slab.used + 1)];
      if slab.free[1..] == [] {
        partial := partial[1..];
        full := full + [base];
      }
      return Some(cell);
    }

    /** `free_node_mem` */
    method FreeNodeMem(node: nat)
      requires Valid() && node in live
      modifies this
      ensures Valid() && live == old(live) - {node}
      ensures slabs.Keys == if LiveIn(z, live, z.SlabOf(node)) == {} then old(slabs).Keys - {z.SlabOf(node)}
        else old(slabs).Keys
    {
      hide AllOk, Listed;
      var base := z.SlabOf(node);
      GiveOk(z, slabs, live, node);
      var slab := slabs[base];
      var used := slab.used - 1;
      StillUsed(z, live, node);
      ghost var given := slabs[base := Slab([node] + slab.free, used)];
      Relisted(slabs, partial, full, base, given[base]);
      live := live - {node};
      if used > 0 {
        if slab.free == [] {
          full := Without(full, base);
          partial := partial + [base];
        }
        slabs := slabs[base := Slab([node] + slab.free, used)];
      } else {
        UnmapOk(z, given, live, base);
        assert given - {base} == slabs - {base};
        partial := Without(partial, base);
        full := Without(full, base);
        slabs := slabs - {base};
      }
    }
  }

  lemma StillUsed(z: Sizes, live: set<nat>, x: nat)
    requires z.Ok() && x in live
    ensures |LiveIn(z, live - {x}, z.SlabOf(x))| == |LiveIn(z, live, z.SlabOf(x))| - 1
  {
    assert LiveIn(z, live - {x}, z.SlabOf(x)) == LiveIn(z, live, z.SlabOf(x)) - {x};
    assert x in LiveIn(z, live, z.SlabOf(x));
  }

  /** The first partial slab loses a free cell. */
  lemma Shrunk(slabs: Slabs, partial: seq<nat>, full: seq<nat>, slab: Slab)
    requires Listed(slabs, partial, full) && partial != []
    ensures partial[0] in slabs && slabs[partial[0]].free != []
    ensures slab.free != [] ==> Listed(slabs[partial[0] := slab], partial, full)
    ensures slab.free == [] ==> Listed(slabs[partial[0] := slab], partial[1..], full + [partial[0]])
  {
    assert partial[0] in partial && partial == [partial[0]] + partial[1..];
    assert forall b :: b in partial <==> b == partial[0] || b in partial[1..];
  }

  /** A full slab that gets a free cell becomes the last partial one. */
  lemma BecomesPartial(slabs: Slabs, partial: seq<nat>, full: seq<nat>, base: nat, slab: Slab)
    requires Listed(slabs, partial, full) && base in slabs && slab.free != [] && slabs[base].free == []
    ensures Listed(slabs[base := slab], partial + [base], Without(full, base))
  {
    WithoutKeeps(full, base);
    assert base !in partial && forall b :: b in partial + [base] <==> b in partial || b == base;
  }

  /** A slab that goes leaves both lists. */
  lemma Unlisted(slabs: Slabs, partial: seq<nat>, full: seq<nat>, base: nat)
    requires Listed(slabs, partial, full)
    ensures Listed(slabs - {base}, Without(partial, base), Without(full, base))
  {
    WithoutKeeps(partial, base);
    WithoutKeeps(full, base);
  }

  /** A slab gets a free cell, or goes. */
  lemma Relisted(slabs: Slabs, partial: seq<nat>, full: seq<nat>, base: nat, slab: Slab)
    requires Listed(slabs, partial, full) && base in slabs && slab.free != []
    ensures slabs[base].free == [] ==> Listed(slabs[base := slab], partial + [base], Without(full, base))
    ensures slabs[base].free != [] ==> Listed(slabs[base := slab], partial, full)
    ensures Listed(slabs - {base}, Without(partial, base), Without(full, base))
  {
    hide Listed;
    Unlisted(slabs, partial, full, base);
    if slabs[base].free == [] {
      BecomesPartial(slabs, partial, full, base, slab);
    } else {
      StaysPartial(slabs, partial, full, base, slab);
    }
  }

  lemma StaysPartial(slabs: Slabs, partial: seq<nat>, full: seq<nat>, base: nat, slab: Slab)
    requires Listed(slabs, partial, full) && base in slabs && slab.free != [] && slabs[base].free != []
    ensures Listed(slabs[base := slab], partial, full)
  {
  }
}
