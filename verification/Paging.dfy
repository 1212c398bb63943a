/** Directory listings (lib/fuse_lowlevel.c, lib/fuse.c): the entries of a directory are packed into
    a page of records, and the next page is asked for with the offset of the last record. */
module Paging {
  newtype byte = x: int | 0 <= x < 256

  const WORD: nat := 0x1_0000_0000
  const NAME_OFFSET: nat := 24         // FUSE_NAME_OFFSET
  const ENTRY_OUT: nat := 128          // sizeof(struct fuse_entry_out)

  /** An entry of the list; `out` are the bytes of its `fuse_entry_out` in a readdirplus reply. */
  datatype Entry = Entry(ino: nat, mode: nat, name: seq<byte>, out: seq<byte>)

  /** What a record says */
  datatype Dirent = Dirent(ino: nat, off: nat, name: seq<byte>, kind: nat)

  // ---------- numbers ----------

  /** The `n` bytes of a number, lowest first */
  function Bytes(v: nat, n: nat): (b: seq<byte>)
    ensures |b| == n
  {
    if n == 0 then [] else [(v % 256) as byte] + Bytes(v / 256, n - 1)
  }

  function Number(b: seq<byte>): nat {
    if b == [] then 0 else b[0] as nat + 256 * Number(b[1..])
  }

  function Power(n: nat): nat {
    if n == 0 then 1 else 256 * Power(n - 1)
  }

  lemma {:induction false} NumberBytes(v: nat, n: nat)
    requires v < Power(n)
    ensures Number(Bytes(v, n)) == v
  {
    if n > 0 {
      assert v / 256 < Power(n - 1);
      NumberBytes(v / 256, n - 1);
      assert Bytes(v, n)[1..] == Bytes(v / 256, n - 1);
    }
  }

  lemma Powers()
    ensures Power(4) == WORD && Power(8) == WORD * WORD
  {
    assert Power(1) == 256 && Power(2) == 0x1_0000 && Power(3) == 0x100_0000;
    assert Power(5) == 0x100_0000_0000 && Power(6) == 0x1_0000_0000_0000 && Power(7) == 0x100_0000_0000_0000;
  }

  /** FUSE_DIRENT_ALIGN */
  function Align(x: nat): (r: nat)
    ensures x <= r < x + 8 && r % 8 == 0
  {
    (x + 7) / 8 * 8
  }

  // ---------- records ----------

  predicate GoodEntry(e: Entry) {
    e.ino < WORD * WORD && |e.name| < WORD && |e.out| == ENTRY_OUT
  }

  function Prefix(plus: bool): nat {
    if plus then ENTRY_OUT else 0
  }

  function RecordSize(plus: bool, namelen: nat): (size: nat)
    ensures size >= Prefix(plus) + NAME_OFFSET + namelen
  {
    Align(Prefix(plus) + NAME_OFFSET + namelen)
  }

  /** `(mode & S_IFMT) >> 12` */
  function Kind(mode: nat): (k: nat)
    ensures k < 16
  {
    mode / 4096 % 16
  }

  /** The type of a mode that is made of a type and permission bits; bits above do not matter. */
  lemma KindOfMode(high: nat, kind: nat, permissions: nat)
    requires kind < 16 && permissions < 4096
    ensures Kind(high * 65536 + kind * 4096 + permissions) == kind
  {
    assert (high * 65536 + kind * 4096 + permissions) / 4096 == high * 16 + kind;
  }

  function Zeros(n: nat): (z: seq<byte>)
    ensures |z| == n
  {
    seq(n, i => 0)
  }

  function Padding(plus: bool, namelen: nat): seq<byte> {
    Zeros(RecordSize(plus, namelen) - Prefix(plus) - NAME_OFFSET - namelen)
  }

  /** A record and what follows it */
  function RecordThen(plus: bool, e: Entry, off: nat, rest: seq<byte>): (r: seq<byte>)
    requires GoodEntry(e)
    ensures |r| == RecordSize(plus, |e.name|) + |rest|
  {
    (if plus then e.out else []) + (Bytes(e.ino, 8) + (Bytes(off, 8) + (Bytes(|e.name|, 4) +
      (Bytes(Kind(e.mode), 4) + (e.name + (Padding(plus, |e.name|) + rest))))))
  }

  function Record(plus: bool, e: Entry, off: nat): (r: seq<byte>)
    requires GoodEntry(e)
    ensures |r| == RecordSize(plus, |e.name|)
  {
    RecordThen(plus, e, off, [])
  }

  lemma Associate(a: seq<byte>, b: seq<byte>, c: seq<byte>)
    ensures (a + b) + c == a + (b + c)
  {
  }

  lemma RecordAnd(plus: bool, e: Entry, off: nat, rest: seq<byte>)
    requires GoodEntry(e)
    ensures Record(plus, e, off) + rest == RecordThen(plus, e, off, rest)
  {
    var out, ino, o, len, kind, pad := if plus then e.out else [], Bytes(e.ino, 8), Bytes(off, 8), Bytes(|e.name|, 4),
      Bytes(Kind(e.mode), 4), Padding(plus, |e.name|);
    hide Bytes, Kind, Padding;
    assert pad + [] == pad;
    Associate(out, ino + (o + (len + (kind + (e.name + pad)))), rest);
    Associate(ino, o + (len + (kind + (e.name + pad))), rest);
    Associate(o, len + (kind + (e.name + pad)), rest);
    Associate(len, kind + (e.name + pad), rest);
    Associate(kind, e.name + pad, rest);
    Associate(e.name, pad, rest);
  }

  /** Reading the records of a page one after the other, up to one that is not complete */
  function Decode(plus: bool, page: seq<byte>): seq<Dirent>
    decreases |page|
  {
    if |page| < Prefix(plus) + NAME_OFFSET then []
    else
      var p0 := page[Prefix(plus)..];
      var p1 := p0[8..];
      var p2 := p1[8..];
      var p3 := p2[4..];
      var p4 := p3[4..];
      var namelen := Number(p2[..4]);
      if |page| < RecordSize(plus, namelen) then []
      else [Dirent(Number(p0[..8]), Number(p1[..8]), p4[..namelen], Number(p3[..4]))] +
           Decode(plus, page[RecordSize(plus, namelen)..])
  }

  lemma Front(a: seq<byte>, b: seq<byte>)
    ensures (a + b)[..|a|] == a && (a + b)[|a|..] == b
  {
  }

  lemma Drops(s: seq<byte>, i: nat, j: nat)
    requires i + j <= |s|
    ensures s[i..][j..] == s[i + j..]
  {
  }

  /** A record is read back, whatever follows. */
  lemma DecodeRecord(plus: bool, e: Entry, off: nat, rest: seq<byte>)
    requires GoodEntry(e) && off < WORD * WORD
    ensures Decode(plus, RecordThen(plus, e, off, rest)) ==
            [Dirent(e.ino, off, e.name, Kind(e.mode))] + Decode(plus, rest)
    ensures plus ==> RecordThen(plus, e, off, rest)[..ENTRY_OUT] == e.out
  {
    FieldsRead(e, off);
    hide Bytes, Number, Align, Kind, Power, Padding, Decode;
    DecodePieces(plus, RecordThen(plus, e, off, rest), if plus then e.out else [], Bytes(e.ino, 8), Bytes(off, 8),
                 Bytes(|e.name|, 4),
                 Bytes(Kind(e.mode), 4), e.name, Padding(plus, |e.name|), rest);
  }

  lemma DecodePieces(plus: bool, page: seq<byte>, out: seq<byte>, ino: seq<byte>, off: seq<byte>, len: seq<byte>,
                     kind: seq<byte>, name: seq<byte>, pad: seq<byte>, rest: seq<byte>)
    requires |out| == Prefix(plus) && |ino| == 8 && |off| == 8 && |len| == 4 && |kind| == 4
    requires Number(len) == |name| && RecordSize(plus, |name|) == |out| + 24 + |name| + |pad|
    requires page == out + (ino + (off + (len + (kind + (name + (pad + rest))))))
    ensures Decode(plus, page) == [Dirent(Number(ino), Number(off), name, Number(kind))] + Decode(plus, rest)
  {
    hide Number, RecordSize, Decode, Drop;
    Front(name, pad + rest);
    DecodeHead(plus, page, out, ino, off, len, kind, name + (pad + rest));
    TailAt(page, out, ino, off, len, kind, name + (pad + rest));
    EndsWith(page, |out| + 24, name, pad, rest);
  }

  lemma FieldsRead(e: Entry, off: nat)
    requires GoodEntry(e) && off < WORD * WORD
    ensures Number(Bytes(e.ino, 8)) == e.ino && Number(Bytes(off, 8)) == off
    ensures Number(Bytes(|e.name|, 4)) == |e.name| && Number(Bytes(Kind(e.mode), 4)) == Kind(e.mode)
  {
    Powers();
    NumberBytes(e.ino, 8);
    NumberBytes(off, 8);
    NumberBytes(|e.name|, 4);
    NumberBytes(Kind(e.mode), 4);
  }

  lemma EndsWith(page: seq<byte>, n: nat, name: seq<byte>, pad: seq<byte>, rest: seq<byte>)
    requires n + |name| + |pad| <= |page| && Drop(page, n) == name + (pad + rest)
    ensures page[n + |name| + |pad|..] == rest
  {
    Front(name, pad + rest);
    Front(pad, rest);
    Drops(page, n, |name|);
    Drops(page, n + |name|, |pad|);
  }

  lemma DecodeHead(plus: bool, page: seq<byte>, out: seq<byte>, ino: seq<byte>, off: seq<byte>, len: seq<byte>,
                   kind: seq<byte>, tail: seq<byte>)
    requires |out| == Prefix(plus) && |ino| == 8 && |off| == 8 && |len| == 4 && |kind| == 4
    requires page == out + (ino + (off + (len + (kind + tail)))) && RecordSize(plus, Number(len)) <= |page|
    ensures Number(len) <= |tail|
    ensures Decode(plus, page) ==
            [Dirent(Number(ino), Number(off), tail[..Number(len)], Number(kind))] +
            Decode(plus, page[RecordSize(plus, Number(len))..])
  {
    hide Number, RecordSize;
    Front(out, ino + (off + (len + (kind + tail))));
    Front(ino, off + (len + (kind + tail)));
    Front(off, len + (kind + tail));
    Front(len, kind + tail);
    Front(kind, tail);
  }

  lemma TailAt(page: seq<byte>, out: seq<byte>, ino: seq<byte>, off: seq<byte>, len: seq<byte>, kind: seq<byte>,
               tail: seq<byte>)
    requires |ino| == 8 && |off| == 8 && |len| == 4 && |kind| == 4
    requires page == out + (ino + (off + (len + (kind + tail))))
    ensures Drop(page, |out| + 24) == tail
  {
    Front(out, ino + (off + (len + (kind + tail))));
    Front(ino, off + (len + (kind + tail)));
    Front(off, len + (kind + tail));
    Front(len, kind + tail);
    Front(kind, tail);
    Drops(page, |out|, 8);
    Drops(page, |out| + 8, 8);
    Drops(page, |out| + 16, 4);
    Drops(page, |out| + 20, 4);
  }

  function Drop(s: seq<byte>, n: nat): seq<byte> {
    if n <= |s| then s[n..] else []
  }

  // ---------- pages ----------

  /** How many entries from `from` on fit into a page with `room` bytes left */
  function Fitting(plus: bool, list: seq<Entry>, from: nat, room: nat): nat
    decreases |list| - from
  {
    if from >= |list| || RecordSize(plus, |list[from].name|) > room then 0
    else 1 + Fitting(plus, list, from + 1, room - RecordSize(plus, |list[from].name|))
  }

  /** The page that starts behind the first `from` entries */
  function Page(plus: bool, list: seq<Entry>, from: nat, room: nat): (page: seq<byte>)
    requires forall i | 0 <= i < |list| :: GoodEntry(list[i])
    ensures |page| <= room
    decreases |list| - from
  {
    if from >= |list| || RecordSize(plus, |list[from].name|) > room then []
    else
      RecordThen(plus, list[from], from + 1, Page(plus, list, from + 1, room - RecordSize(plus, |list[from].name|)))
  }

  /** The entries from `from` to `to` as their records say them: each with the offset behind it */
  function Listed(list: seq<Entry>, from: nat, to: nat): (r: seq<Dirent>)
    requires from <= to <= |list|
    ensures |r| == to - from
    ensures forall i | 0 <= i < |r| ::
      r[i] == Dirent(list[from + i].ino, from + i + 1, list[from + i].name, Kind(list[from + i].mode))
  {
    seq(to - from, i requires 0 <= i < to - from =>
        Dirent(list[from + i].ino, from + i + 1, list[from + i].name, Kind(list[from + i].mode)))
  }

  /** A page holds as many entries as fit, in order. */
  lemma {:induction false} DecodePage(plus: bool, list: seq<Entry>, from: nat, room: nat)
    requires from <= |list| < WORD && forall i | 0 <= i < |list| :: GoodEntry(list[i])
    ensures from + Fitting(plus, list, from, room) <= |list|
    ensures Decode(plus, Page(plus, list, from, room)) == Listed(list, from, from + Fitting(plus, list, from, room))
    decreases |list| - from
  {
    hide Decode, RecordThen, RecordSize, Listed;
    if from < |list| && RecordSize(plus, |list[from].name|) <= room {
      var left := room - RecordSize(plus, |list[from].name|);
      DecodePage(plus, list, from + 1, left);
      DecodeRecord(plus, list[from], from + 1, Page(plus, list, from + 1, left));
      ListedFront(list, from, from + 1 + Fitting(plus, list, from + 1, left));
    } else {
      NothingListed(plus, list, from);
    }
  }

  lemma ListedFront(list: seq<Entry>, from: nat, to: nat)
    requires from < to <= |list|
    ensures Listed(list, from, to) ==
            [Dirent(list[from].ino, from + 1, list[from].name, Kind(list[from].mode))] + Listed(list, from + 1, to)
  {
  }

  lemma NothingListed(plus: bool, list: seq<Entry>, from: nat)
    requires from <= |list|
    ensures Listed(list, from, from) == [] == Decode(plus, [])
  {
  }

  /** What a reader collects who asks for page after page, each time with the offset of the last
      record, until a page is empty */
  function ReadAll(plus: bool, list: seq<Entry>, size: nat, from: nat): seq<Dirent>
    requires from <= |list| < WORD && forall i | 0 <= i < |list| :: GoodEntry(list[i])
    decreases |list| - from
  {
    DecodePage(plus, list, from, size);
    var got := Decode(plus, Page(plus, list, from, size));
    if got == [] then [] else got + ReadAll(plus, list, size, got[|got| - 1].off)
  }

  /** The first entry from `from` on whose record is larger than a page */
  function TooLarge(plus: bool, list: seq<Entry>, size: nat, from: nat): (k: nat)
    requires from <= |list|
    ensures from <= k <= |list| && forall i | from <= i < k :: RecordSize(plus, |list[i].name|) <= size
    ensures k < |list| ==> RecordSize(plus, |list[k].name|) > size
    decreases |list| - from
  {
    if from == |list| || RecordSize(plus, |list[from].name|) > size then from else TooLarge(plus, list, size, from + 1)
  }

  lemma {:induction false} FittingSize(plus: bool, list: seq<Entry>, from: nat, room: nat, size: nat)
    requires from <= |list| && room <= size
    ensures from + Fitting(plus, list, from, room) <= TooLarge(plus, list, size, from)
    ensures TooLarge(plus, list, size, from + Fitting(plus, list, from, room)) == TooLarge(plus, list, size, from)
    decreases |list| - from
  {
    if from < |list| && RecordSize(plus, |list[from].name|) <= room {
      FittingSize(plus, list, from + 1, room - RecordSize(plus, |list[from].name|), size);
    }
  }

  /** The reader gets every entry up to the first one that is too large for a page, in order and once. */
  lemma {:induction false} ReadsUpTo(plus: bool, list: seq<Entry>, size: nat, from: nat)
    requires from <= |list| < WORD && forall i | 0 <= i < |list| :: GoodEntry(list[i])
    ensures ReadAll(plus, list, size, from) == Listed(list, from, TooLarge(plus, list, size, from))
    decreases |list| - from
  {
    var n := Fitting(plus, list, from, size);
    hide Decode, Page, Fitting, RecordSize, Listed, ReadAll;
    FittingSize(plus, list, from, size, size);
    ReadStep(plus, list, size, from);
    if n == 0 {
      NothingFits(plus, list, size, from);
    } else {
      ReadsUpTo(plus, list, size, from + n);
      ListedSplit(list, from, from + n, TooLarge(plus, list, size, from));
    }
  }

  lemma ReadStep(plus: bool, list: seq<Entry>, size: nat, from: nat)
    requires from <= |list| < WORD && forall i | 0 <= i < |list| :: GoodEntry(list[i])
    ensures var n := Fitting(plus, list, from, size);
      from + n <= |list| &&
      ReadAll(plus, list, size, from) == if n == 0 then []
        else Listed(list, from, from + n) + ReadAll(plus, list, size, from + n)
  {
    hide Decode, Page, Fitting, RecordSize, GoodEntry;
    DecodePage(plus, list, from, size);
  }

  lemma NothingFits(plus: bool, list: seq<Entry>, size: nat, from: nat)
    requires from <= |list| && Fitting(plus, list, from, size) == 0
    ensures TooLarge(plus, list, size, from) == from && Listed(list, from, from) == []
  {
  }

  lemma ListedSplit(list: seq<Entry>, from: nat, mid: nat, to: nat)
    requires from <= mid <= to <= |list|
    ensures Listed(list, from, to) == Listed(list, from, mid) + Listed(list, mid, to)
  {
  }

  /** The round trip: the reader gets the whole directory if and only if every entry fits a page. */
  lemma ReadsEverything(plus: bool, list: seq<Entry>, size: nat)
    requires |list| < WORD && forall i | 0 <= i < |list| :: GoodEntry(list[i])
    ensures ReadAll(plus, list, size, 0) == Listed(list, 0, |list|) <==>
            forall i | 0 <= i < |list| :: RecordSize(plus, |list[i].name|) <= size
  {
    ReadsUpTo(plus, list, size, 0);
  }

  /** Two entries whose names have 9 bytes and 1 byte, read in pages of 32 bytes: the reader gets
      neither, although the second would fit. */
  lemma LargeEntryHidesTheRest(first: Entry, second: Entry)
    requires GoodEntry(first) && GoodEntry(second) && |first.name| == 9 && |second.name| == 1
    ensures RecordSize(false, 9) == 40 && RecordSize(false, 1) == 32
    ensures ReadAll(false, [first, second], 32, 0) == []
    ensures ReadAll(false, [second, first], 32, 0) == [Dirent(second.ino, 1, second.name, Kind(second.mode))]
  {
    assert RecordSize(false, 9) == 40 && RecordSize(false, 1) == 32;
    hide ReadAll, RecordSize, Listed;
    ReadsOnly(false, [first, second], 32, 0);
    NextTooLarge(false, [second, first], 32, 0);
    ReadsOnly(false, [second, first], 32, 1);
  }

  /** When the entry at `k` is too large and those before it fit, the reader gets those before it. */
  lemma ReadsOnly(plus: bool, list: seq<Entry>, size: nat, k: nat)
    requires k < |list| < WORD && forall i | 0 <= i < |list| :: GoodEntry(list[i])
    requires RecordSize(plus, |list[k].name|) > size && TooLarge(plus, list, size, 0) == TooLarge(plus, list, size, k)
    ensures ReadAll(plus, list, size, 0) == Listed(list, 0, k)
    ensures k == 0 ==> Listed(list, 0, k) == []
    ensures k == 1 ==> Listed(list, 0, k) == [Dirent(list[0].ino, 1, list[0].name, Kind(list[0].mode))]
  {
    ReadsUpTo(plus, list, size, 0);
    hide ReadAll;
    FirstTooLarge(plus, list, size, k);
  }

  lemma NextTooLarge(plus: bool, list: seq<Entry>, size: nat, from: nat)
    requires from < |list| && RecordSize(plus, |list[from].name|) <= size
    ensures TooLarge(plus, list, size, from) == TooLarge(plus, list, size, from + 1)
  {
  }

  lemma FirstTooLarge(plus: bool, list: seq<Entry>, size: nat, from: nat)
    requires from < |list| && RecordSize(plus, |list[from].name|) > size
    ensures TooLarge(plus, list, size, from) == from
  {
  }

  // ---------- the code ----------

  method PutBytes(buf: array<byte>, at: nat, b: seq<byte>) returns (p: nat)
    requires at + |b| <= buf.Length
    modifies buf
    ensures p == at + |b| && buf[..p] == old(buf[..at]) + b
  {
    forall i | 0 <= i < |b| {
      buf[at + i] := b[i];
    }
    p := at + |b|;
  }

  /** The fields of a record in front of its name */
  method PutNumbers(buf: array<byte>, at: nat, e: Entry, off: nat) returns (p: nat)
    requires at + NAME_OFFSET <= buf.Length
    modifies buf
    ensures p == at + NAME_OFFSET
    ensures buf[..p] == old(buf[..at]) + Bytes(e.ino, 8) + Bytes(off, 8) + Bytes(|e.name|, 4) + Bytes(Kind(e.mode), 4)
  {
    hide Bytes, Kind;
    p := PutBytes(buf, at, Bytes(e.ino, 8));
    p := PutBytes(buf, p, Bytes(off, 8));
    p := PutBytes(buf, p, Bytes(|e.name|, 4));
    p := PutBytes(buf, p, Bytes(Kind(e.mode), 4));
  }

  /** `fuse_add_direntry` and `fuse_add_direntry_plus`: the size that the record needs; it is written
      behind `at` if it fits. */
  method AddDirentry(plus: bool, buf: array?<byte>, at: nat, bufsize: nat, e: Entry, off: nat) returns (size: nat)
    requires GoodEntry(e) && (buf != null ==> at + bufsize <= buf.Length)
    modifies buf
    ensures size == RecordSize(plus, |e.name|)
    ensures buf != null && size <= bufsize ==> buf[..at + size] == old(buf[..at]) + Record(plus, e, off)
    ensures buf != null && size > bufsize ==> buf[..] == old(buf[..])
  {
    var entlen := Prefix(plus) + NAME_OFFSET + |e.name|;
    size := Align(entlen);
    if buf == null || size > bufsize {
      return;
    }
    ghost var front := buf[..at];
    ghost var out := if plus then e.out else [];
    assert Zeros(size - entlen) == Padding(plus, |e.name|) && |Record(plus, e, off)| == size;
    hide Bytes, Kind, Zeros, Padding, Record, RecordSize, Align;
    var p := at;
    if plus {
      p := PutBytes(buf, p, e.out);
    }
    assert buf[..p] == front + out;
    p := PutNumbers(buf, p, e, off);
    p := PutBytes(buf, p, e.name);
    p := PutBytes(buf, p, Zeros(size - entlen));
    RecordFields(plus, e, off, front);
  }

  lemma RecordFields(plus: bool, e: Entry, off: nat, front: seq<byte>)
    requires GoodEntry(e)
    ensures front + (if plus then e.out else []) + Bytes(e.ino, 8) + Bytes(off, 8) + Bytes(|e.name|, 4) +
            Bytes(Kind(e.mode), 4) + e.name + Padding(plus, |e.name|) == front + Record(plus, e, off)
  {
    var out, ino, o, len, kind, pad := if plus then e.out else [], Bytes(e.ino, 8), Bytes(off, 8), Bytes(|e.name|, 4),
      Bytes(Kind(e.mode), 4), Padding(plus, |e.name|);
    hide Bytes, Kind, Padding;
    assert pad + [] == pad;
    Associate(front, out, ino + (o + (len + (kind + (e.name + pad)))));
    Associate(front + out, ino, o + (len + (kind + (e.name + pad))));
    Associate(front + out + ino, o, len + (kind + (e.name + pad)));
    Associate(front + out + ino + o, len, kind + (e.name + pad));
    Associate(front + out + ino + o + len, kind, e.name + pad);
    Associate(front + out + ino + o + len + kind, e.name, pad);
  }

  /** `readdir_fill_from_list`, with a buffer of `needlen` bytes */
  method FillFromList(plus: bool, contents: array<byte>, needlen: nat, list: seq<Entry>, off: int) returns (len: nat)
    requires needlen <= contents.Length && forall i | 0 <= i < |list| :: GoodEntry(list[i])
    modifies contents
    ensures len <= needlen
    ensures contents[..len] == Page(plus, list, if off < 0 then 0 else if off < |list| then off else |list|, needlen)
  {
    hide Record, RecordThen, RecordSize, Page, GoodEntry;
    len := 0;
    var de := 0;
    while de < off && de < |list|
      invariant de <= |list| && (off >= 0 ==> de <= off) && (off < 0 ==> de == 0)
    {
      de := de + 1;
    }
    len := FillFrom(plus, contents, needlen, list, de);
  }

  /** The second loop: `from` entries have been skipped. */
  method FillFrom(plus: bool, contents: array<byte>, needlen: nat, list: seq<Entry>, from: nat) returns (len: nat)
    requires needlen <= contents.Length && from <= |list| && forall i | 0 <= i < |list| :: GoodEntry(list[i])
    modifies contents
    ensures len <= needlen && contents[..len] == Page(plus, list, from, needlen)
  {
    hide Record, RecordThen, RecordSize, Page, GoodEntry;
    len := 0;
    var pos, de := from, from;
    assert contents[..0] + Page(plus, list, from, needlen) == Page(plus, list, from, needlen);
    while de < |list|
      invariant from <= de <= |list| && pos == de && len <= needlen
      invariant contents[..len] + Page(plus, list, de, needlen - len) == Page(plus, list, from, needlen)
    {
      pos := pos + 1;
      ghost var before := contents[..len];
      PageStep(plus, list, de, needlen - len);
      var thislen := AddDirentry(plus, contents, len, needlen - len, list[de], pos);
      var newlen := len + thislen;
      if newlen > needlen {
        assert contents[..len] == before;
        break;
      }
      Associate(before, Record(plus, list[de], pos), Page(plus, list, de + 1, needlen - newlen));
      len := newlen;
      de := de + 1;
    }
    PageStep(plus, list, de, needlen - len);
    assert contents[..len] + [] == contents[..len];
  }

  lemma PageStep(plus: bool, list: seq<Entry>, from: nat, room: nat)
    requires from <= |list| && forall i | 0 <= i < |list| :: GoodEntry(list[i])
    ensures from == |list| || RecordSize(plus, |list[from].name|) > room ==> Page(plus, list, from, room) == []
    ensures from < |list| && RecordSize(plus, |list[from].name|) <= room ==>
      Page(plus, list, from, room) ==
      Record(plus, list[from], from + 1) + Page(plus, list, from + 1, room - RecordSize(plus, |list[from].name|))
  {
    if from < |list| && RecordSize(plus, |list[from].name|) <= room {
      RecordAnd(plus, list[from], from + 1, Page(plus, list, from + 1, room - RecordSize(plus, |list[from].name|)));
    }
  }
}
