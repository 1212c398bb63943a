/** Building a path from the end to the front: `add_name` and the climb of `try_get_path` when it
    takes no locks (lib/fuse.c). */
module PathBuffers {
  import opened Wrappers
  import opened NodeTree

  const UINT_MAX: nat := 0xffff_ffff

  datatype PathResult = Path(path: string) | NoEntry | NoMemory

  class PathBuffer {
    var buf: array<char>
    var bufsize: nat
    var s: nat  // where the path starts; it ends with the NUL in the last cell

    ghost predicate Valid()
      reads this, buf
    {
      buf.Length == bufsize && 256 <= bufsize <= UINT_MAX && s < bufsize && buf[bufsize - 1] == '\0'
    }

    ghost function Text(): string
      requires Valid()
      reads this, buf
    {
      buf[s..bufsize - 1]
    }

    constructor ()
      ensures Valid() && fresh(buf) && Text() == ""
    {
      bufsize := 256;
      buf := new char[256](i => '\0');
      s := 255;
    }

    /** `add_name`: puts a slash and the name in front, growing the buffer when they do not fit.
        `memory` is what `realloc` reports. */
    method AddName(name: string, memory: bool) returns (ok: bool)
      requires Valid() && |Text()| + |name| + 2 <= UINT_MAX
      modifies this, buf
      ensures Valid() && (buf == old(buf) || fresh(buf))
      ensures Text() == if ok then "/" + name + old(Text()) else old(Text())
      ensures memory ==> ok
      ensures !ok ==> |name| >= old(s)
    {
      var len := |name|;
      if s <= len {
        var pathlen := bufsize - s;
        var newbufsize := bufsize;
        while newbufsize < pathlen + len + 1
          invariant bufsize <= newbufsize <= UINT_MAX
          decreases UINT_MAX - newbufsize
        {
          newbufsize := if newbufsize >= 0x8000_0000 then 0xffff_ffff else newbufsize * 2;
        }
        if !memory {
          return false;
        }
        Grow(newbufsize);
      }
      Prepend(name);
      return true;
    }

    /** The two copies of `add_name`, once there is room. */
    method Prepend(name: string)
      requires Valid() && |name| < s
      modifies this`s, buf
      ensures Valid() && Text() == "/" + name + old(Text())
    {
      ghost var text, from := Text(), s;
      var len := |name|;
      s := s - len;
      forall k | 0 <= k < len {
        buf[s + k] := name[k];
      }
      s := s - 1;
      buf[s] := '/';
      assert buf[from..bufsize - 1] == text && buf[s + 1..from] == name;
      assert buf[s..bufsize - 1] == "/" + buf[s + 1..from] + buf[from..bufsize - 1];
    }

    /** The reallocation inside `add_name`: the text moves to the end of the larger buffer. */
    method Grow(newbufsize: nat)
      requires Valid() && bufsize <= newbufsize <= UINT_MAX
      modifies this
      ensures Valid() && fresh(buf) && bufsize == newbufsize && Text() == old(Text())
    {
      var pathlen := bufsize - s;
      ghost var text := Text();
      var newbuf := new char[newbufsize](i => '\0');
      forall k | 0 <= k < pathlen {
        newbuf[newbufsize - pathlen + k] := buf[bufsize - pathlen + k];
      }
      assert newbuf[newbufsize - pathlen..newbufsize - 1] == text;
      buf, s, bufsize := newbuf, newbufsize - pathlen, newbufsize;
    }

    /** The end of `try_get_path`: the text moves to the start of the buffer; no text is the root. */
    method Finish() returns (path: string)
      requires Valid()
      ensures path == if Text() != "" then Text() else "/"
    {
      path := buf[s..bufsize - 1];
      if path == "" {
        path := "/";
      }
    }
  }

  /** `try_get_path` with `need_lock` false. The path ends with `name` if there is one. A climb
      that ends at an unlinked node gives no path. `memory` tells that no allocation fails. */
  method TryGetPath(t: Tree, nodeid: nat, name: Option<string>, memory: bool, ghost c: seq<nat>) returns (r: PathResult)
    requires Linked(t) && c != [] && Climb(t, nodeid, c)
    requires |Spell(t, c)| + |name.GetOr("")| + 3 <= UINT_MAX
    ensures r.Path? ==> Attached(t, nodeid, c)
    ensures r.Path? && name.None? ==> r.path == PathOf(t, c)
    ensures r.Path? && name.Some? ==> r.path == Spell(t, c[..|c| - 1]) + "/" + name.value
    ensures r.NoEntry? ==> !Attached(t, nodeid, c)
    ensures r.NoMemory? ==> !memory
  {
    hide Spell, Climb, Linked, Rising, PathBuffer.Text, PathBuffer.Valid;
    var fails: bool := *;
    if fails && !memory {
      return NoMemory;
    }
    var b := new PathBuffer();
    if name.Some? {
      var grows: bool := *;
      var ok := b.AddName(name.value, memory || grows);
      if !ok {
        return NoMemory;
      }
    }
    ghost var tail := b.Text();
    var node := nodeid;
    ghost var i := 0;
    RiseStarts(t, nodeid, c, tail);
    while node != ROOT
      invariant b.Valid() && fresh(b) && fresh(b.buf) && i < |c| && Rising(t, c, i, tail, node, b.Text())
      decreases |c| - i
    {
      Rise(t, nodeid, c, i, tail, node, b.Text());
      if t[node].name == None || t[node].parent == None {
        return NoEntry;
      }
      var grows: bool := *;
      var ok := b.AddName(t[node].name.value, memory || grows);
      if !ok {
        return NoMemory;
      }
      node := t[node].parent.value;
      i := i + 1;
    }
    Risen(t, nodeid, c, i, tail, b.Text(), name);
    var path := b.Finish();
    return Path(path);
  }

  /** The state of the climb after i nodes */
  ghost predicate Rising(t: Tree, c: seq<nat>, i: nat, tail: string, node: nat, text: string) {
    i < |c| && c[i] == node && text == Spell(t, c[..i]) + tail
  }

  lemma RiseStarts(t: Tree, n: nat, c: seq<nat>, tail: string)
    requires Climb(t, n, c)
    ensures c != [] && Rising(t, c, 0, tail, n, tail)
  {
    assert c[..0] == [] && "" + tail == tail;
  }

  /** One round of it: at the end of the climb, or one name longer and still in bounds */
  lemma Rise(t: Tree, n: nat, c: seq<nat>, i: nat, tail: string, node: nat, text: string)
    requires Linked(t) && Climb(t, n, c) && Rising(t, c, i, tail, node, text) && node != ROOT
    ensures node in t && (t[node].parent.Some? ==> t[node].name.Some? && i + 1 < |c|)
    ensures t[node].parent == None ==> !Attached(t, n, c)
    ensures t[node].parent.Some? ==> |text| + |t[node].name.value| + 1 <= |Spell(t, c)| + |tail|
    ensures t[node].parent.Some? ==>
      Rising(t, c, i + 1, tail, t[node].parent.value, "/" + t[node].name.value + text)
  {
    ClimbNext(t, n, c, i);
    hide Linked, Climb, Spell;
    SpellGrows(t, c, i);
    SpellStep(t, c, i, tail);
  }

  lemma Risen(t: Tree, n: nat, c: seq<nat>, i: nat, tail: string, text: string, name: Option<string>)
    requires Linked(t) && Climb(t, n, c) && Rising(t, c, i, tail, ROOT, text)
    requires tail == if name.Some? then "/" + name.value else ""
    ensures Attached(t, n, c)
    ensures name.None? ==> (if text != "" then text else "/") == PathOf(t, c)
    ensures name.Some? ==> text == Spell(t, c[..|c| - 1]) + "/" + name.value && text != ""
  {
    ClimbNext(t, n, c, i);
    hide Climb, Linked;
    var upper := Spell(t, c[..i]);
    assert upper + "" == upper;
    if name.Some? {
      assert upper + ("/" + name.value) == upper + "/" + name.value;
    }
    SpellLong(t, c[..i]);
  }

  /** The next node of a climb */
  lemma ClimbNext(t: Tree, n: nat, c: seq<nat>, i: nat)
    requires Linked(t) && Climb(t, n, c) && i < |c|
    ensures c[0] == n && c[i] in t && (t[c[i]].parent == None <==> i == |c| - 1)
    ensures i < |c| - 1 ==> t[c[i]].parent == Some(c[i + 1]) && t[c[i]].name.Some? && c[i] != ROOT
    ensures c[i] == ROOT ==> i == |c| - 1
  {
    ClimbSuffix(t, n, c, i);
    assert i < |c| - 1 ==> c[i..][1..][0] == c[i + 1];
  }

  /** The text with one more name in front */
  lemma SpellStep(t: Tree, c: seq<nat>, i: nat, tail: string)
    requires i < |c|
    ensures Spell(t, c[..i + 1]) + tail == "/" + NameIn(t, c[i]) + (Spell(t, c[..i]) + tail)
  {
    assert c[..i + 1] == c[..i] + [c[i]];
    SpellCat(t, c[..i], [c[i]]);
    SpellOne(t, c[i]);
  }

  lemma SpellOne(t: Tree, n: nat)
    ensures Spell(t, [n]) == "/" + NameIn(t, n)
  {
    assert [n][1..] == [] && Spell(t, []) == "";
  }

  lemma {:induction false} SpellLong(t: Tree, s: seq<nat>)
    ensures |Spell(t, s)| >= |s|
  {
    if s != [] {
      SpellLong(t, s[1..]);
    }
  }

  lemma SpellGrows(t: Tree, c: seq<nat>, i: nat)
    requires i < |c|
    ensures |Spell(t, c[..i])| + 1 + |NameIn(t, c[i])| <= |Spell(t, c)|
  {
    assert c == c[..i] + ([c[i]] + c[i + 1..]);
    SpellCat(t, c[..i], [c[i]] + c[i + 1..]);
    assert ([c[i]] + c[i + 1..])[1..] == c[i + 1..];
  }
}
