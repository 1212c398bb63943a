/** Scatter/gather copying between buffer vectors (lib/buffer.c). Memory and files are one store of
    bytes; a system call may transfer less than asked for, or fail. */
module BufCopy {
  import opened Lists

  newtype byte = x: int | 0 <= x < 256

  /** A place in memory, or in the file behind a descriptor. */
  datatype Place = InMemory | InFile(file: int)
  datatype Loc = Loc(place: Place, off: nat)

  type Store = Loc -> byte

  /** Where each descriptor stands in its file. */
  type Positions = map<int, nat>

  /** `struct fuse_buf`: `seek` and `retry` are the flags FUSE_BUF_FD_SEEK and FUSE_BUF_FD_RETRY. */
  datatype Buf = Mem(addr: nat, size: nat) | Fd(fd: int, file: int, seek: bool, pos: nat, retry: bool, size: nat)

  const SCRATCH: nat := 4096
  const SIZE_MAX: nat := 0xffff_ffff_ffff_ffff

  // ---------- which bytes a buffer stands for ----------

  function Range(l: Loc, n: nat): seq<Loc> {
    seq(n, i requires 0 <= i < n => Loc(l.place, l.off + i))
  }

  function PosOf(pos: Positions, fd: int): nat {
    if fd in pos then pos[fd] else 0
  }

  predicate Streams(b: Buf) {
    b.Fd? && !b.seek
  }

  /** The location of a buffer's byte `off`; a stream's is wherever the descriptor stands. */
  function Start(b: Buf, off: nat, pos: Positions): Loc {
    match b
    case Mem(addr, _) => Loc(InMemory, addr + off)
    case Fd(fd, file, seek, p, _, _) => Loc(InFile(file), if seek then p + off else PosOf(pos, fd))
  }

  function Advanced(pos: Positions, b: Buf, n: nat): Positions {
    if Streams(b) && n > 0 then pos[b.fd := PosOf(pos, b.fd) + n] else pos
  }

  /** The bytes that a vector still has to offer from its cursor on, in order. */
  function Slots(b: seq<Buf>, idx: nat, off: nat, pos: Positions): seq<Loc>
    requires idx < |b| ==> off <= b[idx].size
    decreases |b| - idx
  {
    if idx >= |b| then []
    else Range(Start(b[idx], off, pos), b[idx].size - off)
         + Slots(b, idx + 1, 0, Advanced(pos, b[idx], b[idx].size - off))
  }

  /** How many bytes that is. */
  function Left(b: seq<Buf>, idx: nat, off: nat): nat
    requires idx < |b| ==> off <= b[idx].size
    decreases |b| - idx
  {
    if idx >= |b| then 0 else b[idx].size - off + Left(b, idx + 1, 0)
  }

  lemma {:induction false} SlotsSize(b: seq<Buf>, idx: nat, off: nat, pos: Positions)
    requires idx < |b| ==> off <= b[idx].size
    ensures |Slots(b, idx, off, pos)| == Left(b, idx, off)
    decreases |b| - idx
  {
    if idx < |b| {
      SlotsSize(b, idx + 1, 0, Advanced(pos, b[idx], b[idx].size - off));
    }
  }

  /** The cursor that `fuse_bufvec_advance` leaves. */
  predicate Steps(b: seq<Buf>, idx: nat, off: nat, n: nat, idx': nat, off': nat) {
    idx < |b| && off + n <= b[idx].size &&
    if off + n < b[idx].size then idx' == idx && off' == off + n
    else idx' == idx + 1 && (idx' < |b| ==> off' == 0)
  }

  /** How much of a stream the buffers from `idx` up to `i` stand for. */
  function Ahead(b: seq<Buf>, idx: nat, i: nat, fd: int): nat
    requires i <= |b|
    decreases i - idx
  {
    if idx >= i then 0
    else (if b[idx].Fd? && !b[idx].seek && b[idx].fd == fd then b[idx].size else 0) + Ahead(b, idx + 1, i, fd)
  }

  /** Byte `k` of buffer `i`: in memory behind its address; in a file behind the position of the buffer,
      or, in a stream, behind what the earlier buffers take of it. */
  lemma {:induction false} SlotAt(b: seq<Buf>, idx: nat, i: nat, k: nat, pos: Positions)
    requires idx <= i < |b| && k < b[i].size
    ensures var at := Left(b, idx, 0) - Left(b, i, 0) + k;
      && 0 <= at < |Slots(b, idx, 0, pos)|
      && Slots(b, idx, 0, pos)[at] == match b[i]
           case Mem(addr, _) => Loc(InMemory, addr + k)
           case Fd(fd, file, seek, p, _, _) =>
             Loc(InFile(file), k + if seek then p else PosOf(pos, fd) + Ahead(b, idx, i, fd))
    decreases i - idx
  {
    var first := Range(Start(b[idx], 0, pos), b[idx].size);
    var rest := Slots(b, idx + 1, 0, Advanced(pos, b[idx], b[idx].size));
    RangeSize(Start(b[idx], 0, pos), b[idx].size);
    assert Slots(b, idx, 0, pos) == first + rest;
    hide Slots;
    if idx < i {
      SlotAt(b, idx + 1, i, k, Advanced(pos, b[idx], b[idx].size));
    } else {
      assert first[k] == Loc(Start(b[idx], 0, pos).place, Start(b[idx], 0, pos).off + k);
    }
  }

  /** Advancing the cursor and the stream drops the first bytes. */
  lemma SlotsStep(b: seq<Buf>, idx: nat, off: nat, n: nat, idx': nat, off': nat, pos: Positions)
    requires Steps(b, idx, off, n, idx', off')
    ensures idx' < |b| ==> off' <= b[idx'].size
    ensures n <= |Slots(b, idx, off, pos)| && Left(b, idx', off') == Left(b, idx, off) - n
    ensures Slots(b, idx', off', Advanced(pos, b[idx], n)) == Slots(b, idx, off, pos)[n..]
    ensures Slots(b, idx, off, pos)[..n] == Range(Start(b[idx], off, pos), n)
  {
    LeftStep(b, idx, off, n, idx', off');
    SlotsSplit(b, idx, off, n, idx', off', pos);
    hide Slots, Range, Start, Advanced, Left;
    var piece, rest := Range(Start(b[idx], off, pos), n), Slots(b, idx', off', Advanced(pos, b[idx], n));
    assert (piece + rest)[n..] == rest && (piece + rest)[..n] == piece;
  }

  /** What a vector offers is the bytes of one step and what it offers behind it. */
  lemma SlotsSplit(b: seq<Buf>, idx: nat, off: nat, n: nat, idx': nat, off': nat, pos: Positions)
    requires Steps(b, idx, off, n, idx', off')
    ensures idx' < |b| ==> off' <= b[idx'].size
    ensures |Range(Start(b[idx], off, pos), n)| == n
    ensures Slots(b, idx, off, pos) ==
            Range(Start(b[idx], off, pos), n) + Slots(b, idx', off', Advanced(pos, b[idx], n))
  {
    PieceStep(b[idx], off, n, pos);
    RangeSize(Start(b[idx], off, pos), n);
    hide Range, Start, Advanced;
    if off + n < b[idx].size {
      var pos' := Advanced(pos, b[idx], n);
      var piece, more := Range(Start(b[idx], off, pos), n), Range(Start(b[idx], off + n, pos'), b[idx].size - off - n);
      var rest := Slots(b, idx + 1, 0, Advanced(pos, b[idx], b[idx].size - off));
      assert piece + more + rest == piece + (more + rest);
    } else if idx' == |b| {
      SlotsEnd(b, idx', off', Advanced(pos, b[idx], n));
    }
  }

  lemma SlotsEnd(b: seq<Buf>, idx: nat, off: nat, pos: Positions)
    requires idx >= |b|
    ensures Slots(b, idx, off, pos) == []
  {
  }

  lemma RangeSize(l: Loc, n: nat)
    ensures |Range(l, n)| == n
  {
  }

  lemma PieceStep(b: Buf, off: nat, n: nat, pos: Positions)
    requires off + n <= b.size
    ensures var pos' := Advanced(pos, b, n);
      && Advanced(pos', b, b.size - off - n) == Advanced(pos, b, b.size - off)
      && Range(Start(b, off, pos), b.size - off) ==
        Range(Start(b, off, pos), n) + Range(Start(b, off + n, pos'), b.size - off - n)
  {
  }

  /** Moving other streams does not matter. */
  lemma {:induction false} SlotsFrame(b: seq<Buf>, idx: nat, off: nat, pos: Positions, pos': Positions)
    requires idx < |b| ==> off <= b[idx].size
    requires forall i | 0 <= i < |b| && Streams(b[i]) :: PosOf(pos', b[i].fd) == PosOf(pos, b[i].fd)
    ensures Slots(b, idx, off, pos') == Slots(b, idx, off, pos)
    decreases |b| - idx
  {
    if idx < |b| {
      var n := b[idx].size - off;
      SlotsFrame(b, idx + 1, 0, Advanced(pos, b[idx], n), Advanced(pos', b[idx], n));
    }
  }

  // ---------- what a copy does ----------

  /** A part of memory whose contents nobody relies on: the array on the stack of
      `fuse_buf_fd_to_fd`. */
  datatype Frame = Frame(at: nat, size: nat)

  const NOTHING := Frame(0, 0)

  predicate Scratch(frame: Frame, l: Loc) {
    l.place == InMemory && frame.at <= l.off < frame.at + frame.size
  }

  /** The first `n` destination bytes are the first `n` source bytes as they were before, and
      nothing else has changed, except perhaps inside `frame`. */
  ghost predicate Streamed(before: Store, after: Store, dst: seq<Loc>, src: seq<Loc>, n: nat, frame: Frame) {
    n <= |dst| && n <= |src| &&
    (forall k | 0 <= k < n :: after(dst[k]) == before(src[k])) &&
    forall l | l !in dst[..n] && !Scratch(frame, l) :: after(l) == before(l)
  }

  /** No destination byte is a source byte that comes later. */
  ghost predicate NoOverrun(dst: seq<Loc>, src: seq<Loc>) {
    forall i, j | 0 <= i < |dst| && 0 <= j < |src| && i < j :: dst[i] != src[j]
  }

  ghost predicate OffStack(slots: seq<Loc>, frame: Frame) {
    forall k | 0 <= k < |slots| :: !Scratch(frame, slots[k])
  }

  ghost predicate Clear(dst: seq<Loc>, src: seq<Loc>, frame: Frame) {
    Distinct(dst) && NoOverrun(dst, src) && OffStack(dst, frame) && OffStack(src, frame)
  }

  /** Two copies in a row are one copy. */
  lemma StreamedTwice(s0: Store, s1: Store, s2: Store, dst: seq<Loc>, src: seq<Loc>, n: nat, m: nat, frame: Frame)
    requires Clear(dst, src, frame) && Streamed(s0, s1, dst, src, n, frame)
    requires Streamed(s1, s2, dst[n..], src[n..], m, frame)
    ensures Streamed(s0, s2, dst, src, n + m, frame)
  {
    forall k | 0 <= k < n + m ensures s2(dst[k]) == s0(src[k]) {
      assert !Scratch(frame, dst[k]) && !Scratch(frame, src[k]);
      if k < n {
        assert dst[k] !in dst[n..][..m];
        assert s2(dst[k]) == s1(dst[k]);
      } else {
        assert dst[n..][k - n] == dst[k] && src[n..][k - n] == src[k];
        assert src[k] !in dst[..n];
      }
    }
    forall l | l !in dst[..n + m] && !Scratch(frame, l) ensures s2(l) == s0(l) {
      assert dst[..n + m] == dst[..n] + dst[n..][..m];
    }
  }

  lemma Loosened(before: Store, after: Store, dst: seq<Loc>, src: seq<Loc>, n: nat, frame: Frame)
    requires Streamed(before, after, dst, src, n, NOTHING)
    ensures Streamed(before, after, dst, src, n, frame)
  {
  }

  lemma NothingStreamed(store: Store, dst: seq<Loc>, src: seq<Loc>)
    ensures Streamed(store, store, dst, src, 0, NOTHING)
  {
  }

  /** Copying into the stack frame and on from there is a copy. */
  lemma StreamedThrough(s0: Store, s1: Store, s2: Store, dst: seq<Loc>, mid: seq<Loc>, src: seq<Loc>,
                        n: nat, m: nat, frame: Frame)
    requires Streamed(s0, s1, mid, src, n, frame) && Streamed(s1, s2, dst, mid, m, frame) && m <= n
    requires forall l | l in mid :: Scratch(frame, l)
    ensures Streamed(s0, s2, dst, src, m, frame)
  {
    forall l | l !in dst[..m] && !Scratch(frame, l) ensures s2(l) == s0(l) {
      assert l !in mid[..n];
    }
  }

  lemma RangesClear(d: Loc, s: Loc, n: nat)
    requires d.place != s.place
    ensures Clear(Range(d, n), Range(s, n), NOTHING)
  {
  }

  /** A shorter transfer is a transfer of a part. */
  lemma StreamedPart(before: Store, after: Store, d: Loc, s: Loc, len: nat, n: nat, frame: Frame)
    requires n <= len
    ensures Streamed(before, after, Range(d, len), Range(s, len), n, frame)
            <==> Streamed(before, after, Range(d, n), Range(s, n), n, frame)
  {
    assert Range(d, len)[..n] == Range(d, n)[..n];
    assert forall k | 0 <= k < n :: Range(d, len)[k] == Range(d, n)[k] && Range(s, len)[k] == Range(s, n)[k];
  }

  lemma RangeHas(d: Loc, n: nat)
    ensures forall l :: l in Range(d, n) <==> l.place == d.place && d.off <= l.off < d.off + n
  {
    forall l: Loc | l.place == d.place && d.off <= l.off < d.off + n ensures l in Range(d, n) {
      assert Range(d, n)[l.off - d.off] == l;
    }
  }

  ghost predicate Put(before: Store, after: Store, dst: Loc, src: Loc, n: nat) {
    forall l: Loc {:trigger after(l)} :: after(l) == if l.place == dst.place && dst.off <= l.off < dst.off + n
                                 then before(Loc(src.place, src.off + (l.off - dst.off))) else before(l)
  }

  lemma PutAt(before: Store, after: Store, dst: Loc, src: Loc, n: nat, k: nat)
    requires Put(before, after, dst, src, n) && k < n
    ensures after(Range(dst, n)[k]) == before(Range(src, n)[k])
  {
    assert Range(dst, n)[k] == Loc(dst.place, dst.off + k) && Range(src, n)[k] == Loc(src.place, src.off + k);
  }

  lemma PutElsewhere(before: Store, after: Store, dst: Loc, src: Loc, n: nat, l: Loc)
    requires Put(before, after, dst, src, n) && l !in Range(dst, n)
    ensures after(l) == before(l)
  {
    RangeHas(dst, n);
    assert !(l.place == dst.place && dst.off <= l.off < dst.off + n);
  }

  lemma PutStreams(before: Store, after: Store, dst: Loc, src: Loc, n: nat)
    requires Put(before, after, dst, src, n)
    ensures Streamed(before, after, Range(dst, n), Range(src, n), n, NOTHING)
  {
    forall k | 0 <= k < n ensures after(Range(dst, n)[k]) == before(Range(src, n)[k]) {
      PutAt(before, after, dst, src, n, k);
    }
    assert Range(dst, n)[..n] == Range(dst, n);
    forall l: Loc | l !in Range(dst, n)[..n] && !Scratch(NOTHING, l) ensures after(l) == before(l) {
      PutElsewhere(before, after, dst, src, n, l);
    }
    hide Put;
  }

  lemma RangeDrop(l: Loc, n: nat, k: nat)
    requires k <= n
    ensures Range(l, n)[k..] == Range(Loc(l.place, l.off + k), n - k)
  {
  }

  // ---------- one buffer to another ----------

  /** The two buffers do not share the position of a descriptor. */
  predicate Separate(dst: Buf, src: Buf) {
    Streams(dst) && Streams(src) ==> dst.fd != src.fd
  }

  function Piece(b: Buf, off: nat, len: nat, pos: Positions): seq<Loc> {
    Range(Start(b, off, pos), len)
  }

  function AtLeast0(r: int): nat {
    if r < 0 then 0 else r
  }

  function Both(pos: Positions, dst: Buf, src: Buf, n: nat): Positions {
    Advanced(Advanced(pos, src, n), dst, n)
  }

  /** `n` of the `len` bytes have arrived. */
  ghost predicate Arrived(store: Store, pos: Positions, store': Store, dst: Buf, dstOff: nat, src: Buf, srcOff: nat,
                          len: nat, n: nat, frame: Frame) {
    Streamed(store, store', Piece(dst, dstOff, len, pos), Piece(src, srcOff, len, pos), n, frame)
  }

  ghost predicate Apart(pos: Positions, dst: Buf, dstOff: nat, src: Buf, srcOff: nat, len: nat, frame: Frame) {
    Separate(dst, src) && Clear(Piece(dst, dstOff, len, pos), Piece(src, srcOff, len, pos), frame)
  }

  /** What `fuse_buf_copy_one` promises: `r` bytes have arrived, none on an error; after a complete
      transfer both streams stand behind the bytes. */
  ghost predicate Copied(store: Store, pos: Positions, store': Store, pos': Positions, dst: Buf, dstOff: nat,
                         src: Buf, srcOff: nat, len: nat, r: int, frame: Frame) {
    Apart(pos, dst, dstOff, src, srcOff, len, frame) ==>
      Arrived(store, pos, store', dst, dstOff, src, srcOff, len, AtLeast0(r), frame) &&
      (r == len ==> pos' == Both(pos, dst, src, len))
  }

  /** Copying a region of memory onto itself leaves nothing to do. */
  lemma SameCopied(store: Store, pos: Positions, dst: Buf, dstOff: nat, src: Buf, srcOff: nat, len: nat, frame: Frame)
    requires dst.Mem? && src.Mem?
    ensures dst.addr + dstOff == src.addr + srcOff ==>
      Copied(store, pos, store, pos, dst, dstOff, src, srcOff, len, len, frame)
  {
  }

  lemma FailedCopied(store: Store, pos: Positions, dst: Buf, dstOff: nat, src: Buf, srcOff: nat, len: nat, r: int,
                     frame: Frame)
    requires r < 0
    ensures Copied(store, pos, store, pos, dst, dstOff, src, srcOff, len, r, frame)
  {
  }

  lemma StreamedCopied(store: Store, pos: Positions, store': Store, pos': Positions, dst: Buf, dstOff: nat, src: Buf,
                       srcOff: nat, len: nat, r: nat, frame: Frame)
    requires Streamed(store, store', Range(Start(dst, dstOff, pos), len), Range(Start(src, srcOff, pos), len), r,
                      NOTHING)
    requires r == len ==> pos' == Both(pos, dst, src, len)
    ensures Copied(store, pos, store', pos', dst, dstOff, src, srcOff, len, r, frame)
  {
  }

  /** Behind a part that came through, another of which `n` bytes were written and `lost` more were read */
  lemma LostTwice(pos: Positions, dst: Buf, src: Buf, copied: nat, n: nat, lost: nat)
    requires Separate(dst, src)
    ensures Advanced(Advanced(Both(pos, dst, src, copied), src, n + lost), dst, n) ==
            Advanced(Advanced(pos, src, copied + n + lost), dst, copied + n)
    ensures Advanced(Advanced(pos, src, copied + n), dst, copied + n) == Both(pos, dst, src, copied + n)
  {
  }

  lemma BothAdvanced(pos: Positions, dst: Buf, src: Buf, n: nat)
    ensures Both(pos, dst, src, n) == Advanced(Advanced(pos, src, n), dst, n)
  {
  }

  lemma BothStart(pos: Positions, dst: Buf, dstOff: nat, src: Buf, srcOff: nat, n: nat)
    requires Separate(dst, src)
    ensures var d := Start(dst, dstOff, pos); Start(dst, dstOff + n, Both(pos, dst, src, n)) == Loc(d.place, d.off + n)
    ensures var s := Start(src, srcOff, pos); Start(src, srcOff + n, Both(pos, dst, src, n)) == Loc(s.place, s.off + n)
  {
  }

  /** One turn of the loop of `fuse_buf_fd_to_fd`: `r1` bytes come into the array and `r2` of them go on. */
  lemma OneChunk(store1: Store, pos: Positions, store2: Store, store3: Store, dst: Buf, dstAt: nat, src: Buf,
                 srcAt: nat, len: nat, r1: nat, r2: nat, at: nat)
    requires dst.Fd? && src.Fd? && Separate(dst, src) && r2 <= r1 <= len <= SCRATCH
    requires Streamed(store1, store2, Range(Loc(InMemory, at), len), Piece(src, srcAt, len, pos), r1, NOTHING)
    requires Streamed(store2, store3, Piece(dst, dstAt, r1, Advanced(pos, src, r1)), Range(Loc(InMemory, at), r1), r2,
                      NOTHING)
    ensures Arrived(store1, pos, store3, dst, dstAt, src, srcAt, len, r2, Frame(at, SCRATCH))
  {
    var frame, tmp, d, s := Frame(at, SCRATCH), Loc(InMemory, at), Start(dst, dstAt, pos), Start(src, srcAt, pos);
    assert Start(dst, dstAt, Advanced(pos, src, r1)) == d;
    StreamedPart(store1, store2, tmp, s, len, r1, NOTHING);
    hide Streamed, Start, Advanced;
    Loosened(store1, store2, Range(tmp, r1), Range(s, r1), r1, frame);
    Loosened(store2, store3, Range(d, r1), Range(tmp, r1), r2, frame);
    StreamedThrough(store1, store2, store3, Range(d, r1), Range(tmp, r1), Range(s, r1), r1, r2, frame);
    StreamedPart(store1, store3, d, s, r1, r2, frame);
    StreamedPart(store1, store3, d, s, len, r2, frame);
  }

  lemma Extend(store0: Store, pos0: Positions, store1: Store, store2: Store, dst: Buf, dstOff: nat, src: Buf,
               srcOff: nat, len: nat, copied: nat, k: nat, n: nat, frame: Frame)
    requires Apart(pos0, dst, dstOff, src, srcOff, len, frame) && copied + k <= len && n <= k
    requires Arrived(store0, pos0, store1, dst, dstOff, src, srcOff, len, copied, frame)
    requires Arrived(store1, Both(pos0, dst, src, copied), store2, dst, dstOff + copied, src, srcOff + copied, k, n,
                     frame)
    ensures Arrived(store0, pos0, store2, dst, dstOff, src, srcOff, len, copied + n, frame)
  {
    hide Streamed, Clear, Start, Both, Range, Advanced, Separate;
    BothStart(pos0, dst, dstOff, src, srcOff, copied);
    ExtendRanges(store0, store1, store2, Start(dst, dstOff, pos0), Start(src, srcOff, pos0), len, copied, k, n, frame);
  }

  lemma ExtendRanges(store0: Store, store1: Store, store2: Store, d: Loc, s: Loc, len: nat, copied: nat, k: nat,
                     n: nat, frame: Frame)
    requires copied + k <= len && n <= k && Clear(Range(d, len), Range(s, len), frame)
    requires Streamed(store0, store1, Range(d, len), Range(s, len), copied, frame)
    requires Streamed(store1, store2, Range(Loc(d.place, d.off + copied), k), Range(Loc(s.place, s.off + copied), k),
                      n, frame)
    ensures Streamed(store0, store2, Range(d, len), Range(s, len), copied + n, frame)
  {
    hide Streamed, Clear;
    var d', s' := Loc(d.place, d.off + copied), Loc(s.place, s.off + copied);
    RangeDrop(d, len, copied);
    RangeDrop(s, len, copied);
    StreamedPart(store1, store2, d', s', k, n, frame);
    StreamedPart(store1, store2, d', s', len - copied, n, frame);
    StreamedTwice(store0, store1, store2, Range(d, len), Range(s, len), copied, n, frame);
  }

  /** The state of the retry loops: `copied` bytes have arrived. */
  ghost predicate Repeating(store0: Store, pos0: Positions, store: Store, pos: Positions, d: Loc, s: Loc, len: nat,
                            b: Buf, copied: nat) {
    copied <= len && pos == Advanced(pos0, b, copied) &&
    Streamed(store0, store, Range(d, len), Range(s, len), copied, NOTHING)
  }

  lemma RepeatStarts(store: Store, pos: Positions, d: Loc, s: Loc, len: nat, b: Buf)
    ensures Repeating(store, pos, store, pos, d, s, len, b, 0)
  {
    NothingStreamed(store, Range(d, len), Range(s, len));
  }

  /** One more call transfers `res` of the bytes that are left. */
  lemma RepeatOn(store0: Store, pos0: Positions, store1: Store, pos1: Positions, store: Store, pos: Positions, d: Loc,
                 s: Loc, len: nat, b: Buf, copied: nat, res: nat)
    requires d.place != s.place && copied + res <= len && pos == Advanced(pos1, b, res)
    requires Repeating(store0, pos0, store1, pos1, d, s, len, b, copied)
    requires Streamed(store1, store, Range(Loc(d.place, d.off + copied), len - copied),
                      Range(Loc(s.place, s.off + copied), len - copied), res, NOTHING)
    ensures Repeating(store0, pos0, store, pos, d, s, len, b, copied + res)
  {
    AdvancedTwice(pos0, b, copied, res);
    hide Streamed, Range, Advanced, Clear;
    RangesClear(d, s, len);
    RangeDrop(d, len, copied);
    RangeDrop(s, len, copied);
    StreamedTwice(store0, store1, store, Range(d, len), Range(s, len), copied, res, NOTHING);
  }

  /** Where the next call works */
  lemma RepeatAt(store0: Store, pos0: Positions, store: Store, pos: Positions, dst: Buf, dstAt: nat, src: Buf,
                 srcAt: nat, len: nat, b: Buf, d: Loc, s: Loc, copied: nat)
    requires (dst.Fd? && src.Mem? && b == dst) || (dst.Mem? && src.Fd? && b == src)
    requires copied <= dstAt && d == Start(dst, dstAt - copied, pos0)
    requires copied <= srcAt && s == Start(src, srcAt - copied, pos0)
    requires Repeating(store0, pos0, store, pos, d, s, len, b, copied)
    ensures d.place != s.place
    ensures Start(dst, dstAt, pos) == Loc(d.place, d.off + copied)
    ensures Start(src, srcAt, pos) == Loc(s.place, s.off + copied)
  {
    assert d.place != s.place;
    hide Streamed, Range, Start, Advanced;
    RepeatStart(dst, dstAt - copied, src, srcAt - copied, b, pos0, copied, 0);
    RepeatStart(dst, dstAt - copied, src, srcAt - copied, b, pos0, 0, copied);
  }

  lemma RepeatEnds(store0: Store, pos0: Positions, store: Store, pos: Positions, d: Loc, s: Loc, len: nat, b: Buf,
                   copied: nat)
    requires Repeating(store0, pos0, store, pos, d, s, len, b, copied)
    ensures pos == Advanced(pos0, b, copied) && Streamed(store0, store, Range(d, len), Range(s, len), copied, NOTHING)
  {
  }

  lemma AdvancedTwice(pos: Positions, b: Buf, n: nat, m: nat)
    ensures Advanced(Advanced(pos, b, n), b, m) == Advanced(pos, b, n + m)
  {
  }

  lemma RepeatStart(dst: Buf, dstOff: nat, src: Buf, srcOff: nat, b: Buf, pos: Positions, n: nat, m: nat)
    requires (dst.Fd? && src.Mem? && b == dst) || (dst.Mem? && src.Fd? && b == src)
    ensures Advanced(Advanced(pos, b, n), b, m) == Advanced(pos, b, n + m) && Advanced(pos, b, 0) == pos
    ensures var d := Start(dst, dstOff, pos);
      Start(dst, dstOff + (n + m), Advanced(pos, b, n + m)) == Loc(d.place, d.off + (n + m))
    ensures var s := Start(src, srcOff, pos);
      Start(src, srcOff + (n + m), Advanced(pos, b, n + m)) == Loc(s.place, s.off + (n + m))
  {
  }

  lemma NothingArrived(store: Store, pos: Positions, dst: Buf, dstOff: nat, src: Buf, srcOff: nat, len: nat,
                       frame: Frame)
    ensures Arrived(store, pos, store, dst, dstOff, src, srcOff, len, 0, frame) && Both(pos, dst, src, 0) == pos
  {
  }

  // ---------- vectors ----------

  predicate Memory(b: seq<Buf>) {
    forall i | 0 <= i < |b| :: b[i].Mem?
  }

  /** No descriptor is a stream on both sides. */
  predicate SeparateAll(dst: seq<Buf>, src: seq<Buf>) {
    forall i, j | 0 <= i < |dst| && 0 <= j < |src| :: Separate(dst[i], src[j])
  }

  lemma ClearPart(dst: seq<Loc>, src: seq<Loc>, a: nat, len: nat, frame: Frame)
    requires Clear(dst, src, frame) && a + len <= |dst| && a + len <= |src|
    ensures Clear(dst[a..][..len], src[a..][..len], frame)
  {
  }

  lemma StreamedPrefix(before: Store, after: Store, dst: seq<Loc>, src: seq<Loc>, len: nat, n: nat, frame: Frame)
    requires n <= len <= |dst| && len <= |src| && Streamed(before, after, dst[..len], src[..len], n, frame)
    ensures Streamed(before, after, dst, src, n, frame)
  {
    assert dst[..len][..n] == dst[..n];
  }

  /** Where the loop of `fuse_buf_copy` stands after `n` bytes. */
  ghost predicate Reached(store0: Store, dst: seq<Loc>, src: seq<Loc>, store: Store, n: nat, dstLeft: seq<Loc>,
                          srcLeft: seq<Loc>, frame: Frame) {
    n <= |dst| && n <= |src| && dstLeft == dst[n..] && srcLeft == src[n..] &&
      Streamed(store0, store, dst, src, n, frame)
  }

  /** One turn of that loop. */
  lemma OneTurn(store0: Store, dst: seq<Loc>, src: seq<Loc>, store: Store, copied: nat, dstLeft: seq<Loc>,
                srcLeft: seq<Loc>, store': Store, len: nat, n: nat, frame: Frame)
    requires Clear(dst, src, frame) && Reached(store0, dst, src, store, copied, dstLeft, srcLeft, frame)
    requires n <= len <= |dstLeft| && len <= |srcLeft|
    requires Clear(dstLeft[..len], srcLeft[..len], frame) ==>
      Streamed(store, store', dstLeft[..len], srcLeft[..len], n, frame)
    ensures Reached(store0, dst, src, store', copied + n, dstLeft[n..], srcLeft[n..], frame)
  {
    ClearPart(dst, src, copied, len, frame);
    StreamedPrefix(store, store', dst[copied..], src[copied..], len, n, frame);
    hide Streamed, Clear;
    StreamedTwice(store0, store, store', dst, src, copied, n, frame);
    assert dst[copied..][n..] == dst[copied + n..] && src[copied..][n..] == src[copied + n..];
  }

  /** After a complete transfer both vectors offer what is left. */
  lemma BothStep(dst: seq<Buf>, i: nat, dstOff: nat, i': nat, dstOff': nat, src: seq<Buf>, j: nat, srcOff: nat,
                 j': nat, srcOff': nat, n: nat, pos: Positions)
    requires SeparateAll(dst, src) && Steps(dst, i, dstOff, n, i', dstOff') && Steps(src, j, srcOff, n, j', srcOff')
    ensures (i' < |dst| ==> dstOff' <= dst[i'].size) && (j' < |src| ==> srcOff' <= src[j'].size)
    ensures var pos' := Both(pos, dst[i], src[j], n);
      && n <= |Slots(dst, i, dstOff, pos)| && Slots(dst, i', dstOff', pos') == Slots(dst, i, dstOff, pos)[n..]
      && n <= |Slots(src, j, srcOff, pos)| && Slots(src, j', srcOff', pos') == Slots(src, j, srcOff, pos)[n..]
  {
    var pos' := Both(pos, dst[i], src[j], n);
    SlotsStep(dst, i, dstOff, n, i', dstOff', pos);
    SlotsStep(src, j, srcOff, n, j', srcOff', pos);
    hide Slots;
    forall k | 0 <= k < |dst| && Streams(dst[k])
      ensures PosOf(pos', dst[k].fd) == PosOf(Advanced(pos, dst[i], n), dst[k].fd)
    {
      assert Separate(dst[k], src[j]);
    }
    SlotsFrame(dst, i', dstOff', Advanced(pos, dst[i], n), pos');
    forall k | 0 <= k < |src| && Streams(src[k])
      ensures PosOf(pos', src[k].fd) == PosOf(Advanced(pos, src[j], n), src[k].fd)
    {
      assert Separate(dst[i], src[k]);
    }
    SlotsFrame(src, j', srcOff', Advanced(pos, src[j], n), pos');
  }

  /** The first bytes of a vector are those of its current buffer. */
  lemma SlotsFirst(b: seq<Buf>, idx: nat, off: nat, n: nat, pos: Positions)
    requires idx < |b| && off + n <= b[idx].size
    ensures n <= |Slots(b, idx, off, pos)| && Slots(b, idx, off, pos)[..n] == Piece(b[idx], off, n, pos)
  {
  }

  lemma LeftFirst(b: seq<Buf>, idx: nat, off: nat)
    requires idx < |b| && off <= b[idx].size
    ensures b[idx].size - off <= Left(b, idx, off)
  {
  }

  lemma LeftStep(b: seq<Buf>, idx: nat, off: nat, n: nat, idx': nat, off': nat)
    requires Steps(b, idx, off, n, idx', off')
    ensures idx' < |b| ==> off' <= b[idx'].size
    ensures Left(b, idx', off') == Left(b, idx, off) - n && (idx' >= |b| ==> Left(b, idx', off') == 0)
  {
  }

  /** What `fuse_buf_copy_one` has done for the whole vectors. */
  lemma TurnArrives(store0: Store, d: seq<Loc>, s: seq<Loc>, store: Store, copied: nat,
                    dst: seq<Buf>, i: nat, dstOff: nat, src: seq<Buf>, j: nat, srcOff: nat, pos: Positions,
                    store': Store, pos': Positions, len: nat, r: int, frame: Frame)
    requires SeparateAll(dst, src) && Clear(d, s, frame) && i < |dst| && j < |src| && r <= len
    requires dstOff + len <= dst[i].size && srcOff + len <= src[j].size
    requires Reached(store0, d, s, store, copied, Slots(dst, i, dstOff, pos), Slots(src, j, srcOff, pos), frame)
    requires Copied(store, pos, store', pos', dst[i], dstOff, src[j], srcOff, len, r, frame)
    ensures var n := AtLeast0(r);
      && n <= |Slots(dst, i, dstOff, pos)| && n <= |Slots(src, j, srcOff, pos)|
      && Reached(store0, d, s, store', copied + n, Slots(dst, i, dstOff, pos)[n..], Slots(src, j, srcOff, pos)[n..],
                 frame)
    ensures Streamed(store0, store', d, s, copied + AtLeast0(r), frame)
    ensures r == len ==> pos' == Both(pos, dst[i], src[j], len)
  {
    SlotsFirst(dst, i, dstOff, len, pos);
    SlotsFirst(src, j, srcOff, len, pos);
    assert Separate(dst[i], src[j]);
    hide Slots, Start, Clear, Streamed, Reached, Piece;
    OneTurn(store0, d, s, store, copied, Slots(dst, i, dstOff, pos), Slots(src, j, srcOff, pos), store', len,
            AtLeast0(r), frame);
    ReachedStreamed(store0, d, s, store', copied + AtLeast0(r), Slots(dst, i, dstOff, pos)[AtLeast0(r)..],
                    Slots(src, j, srcOff, pos)[AtLeast0(r)..], frame);
    if r == len {
      ClearTurn(store0, d, s, store, copied, Slots(dst, i, dstOff, pos), Slots(src, j, srcOff, pos), len, frame);
    }
  }

  lemma ClearTurn(store0: Store, dst: seq<Loc>, src: seq<Loc>, store: Store, copied: nat, dstLeft: seq<Loc>,
                  srcLeft: seq<Loc>, len: nat, frame: Frame)
    requires Clear(dst, src, frame) && Reached(store0, dst, src, store, copied, dstLeft, srcLeft, frame)
    requires len <= |dstLeft| && len <= |srcLeft|
    ensures Clear(dstLeft[..len], srcLeft[..len], frame)
  {
    ClearPart(dst, src, copied, len, frame);
  }

  lemma StartReached(store: Store, dst: seq<Loc>, src: seq<Loc>, frame: Frame)
    ensures Reached(store, dst, src, store, 0, dst, src, frame)
  {
  }

  lemma ReachedStreamed(store0: Store, dst: seq<Loc>, src: seq<Loc>, store: Store, n: nat, dstLeft: seq<Loc>,
                        srcLeft: seq<Loc>, frame: Frame)
    requires Reached(store0, dst, src, store, n, dstLeft, srcLeft, frame)
    ensures Streamed(store0, store, dst, src, n, frame)
  {
  }

  // ---------- the system calls ----------

  /** A read or write: how much was asked for, how much was moved (or -1 and an error), and whether the
      flag FUSE_BUF_FD_RETRY asks for another one when less was moved. */
  datatype Call = Call(asked: nat, got: int, errno: int, retry: bool)

  /** A call behind which the copy cannot go on */
  predicate Cut(call: Call) {
    call.got < call.asked && (call.retry ==> call.got <= 0)
  }

  /** No call from `start` on was cut short. */
  ghost predicate Whole(calls: seq<Call>, start: nat) {
    forall k | start <= k < |calls| :: !Cut(calls[k])
  }

  /** The last call failed with the error that is returned. */
  ghost predicate Failed(calls: seq<Call>, r: int) {
    calls != [] && calls[|calls| - 1].got == -1 && r == -calls[|calls| - 1].errno
  }

  /** The last call moved nothing. */
  ghost predicate Idle(calls: seq<Call>) {
    calls != [] && calls[|calls| - 1].got == 0
  }

  /** What a result tells of the calls since `before`: all `len` bytes came through exactly if no call
      was cut short, an error is that of the last call, and nothing came only from a call that moved
      nothing. */
  ghost predicate Tells(before: seq<Call>, calls: seq<Call>, r: int, len: int) {
    before <= calls && (r == len <==> Whole(calls, |before|)) && (r < 0 ==> len > 0 && Failed(calls, r)) &&
    (r == 0 && len > 0 ==> Idle(calls))
  }

  lemma WholeOn(calls: seq<Call>, start: nat, call: Call)
    requires start <= |calls|
    ensures Whole(calls + [call], start) <==> Whole(calls, start) && !Cut(call)
  {
    if Whole(calls + [call], start) {
      assert forall k | start <= k < |calls| :: calls[k] == (calls + [call])[k];
      assert (calls + [call])[|calls|] == call;
    }
  }

  lemma NoCalls(calls: seq<Call>)
    ensures Whole(calls, |calls|)
  {
  }

  /** One more call of a retry loop, and what it means if the loop ends with it */
  lemma OneCall(before: seq<Call>, calls: seq<Call>, calls': seq<Call>, call: Call)
    requires before <= calls && Whole(calls, |before|) && calls' == calls + [call]
    ensures before <= calls' && |calls'| == |calls| + 1 && calls'[|calls|] == call && calls != calls'
    ensures Whole(calls', |before|) <==> call.got >= call.asked || (call.retry && call.got > 0)
    ensures call.got == -1 ==> Failed(calls', -call.errno)
    ensures call.got == 0 ==> Idle(calls')
  {
    WholeOn(calls, |before|, call);
  }

  lemma Telling(before: seq<Call>, calls: seq<Call>, r: int, len: int)
    requires before <= calls && (r == len <==> Whole(calls, |before|)) && (r < 0 ==> len > 0 && Failed(calls, r))
    requires r == 0 && len > 0 ==> Idle(calls)
    ensures Tells(before, calls, r, len)
  {
  }

  lemma WholeJoin(a: seq<Call>, b: seq<Call>, c: seq<Call>)
    requires a <= b <= c
    ensures a <= c && (Whole(c, |a|) <==> Whole(b, |a|) && Whole(c, |b|)) && Whole(a, |a|)
  {
    if Whole(c, |a|) {
      assert forall k | |a| <= k < |b| :: b[k] == c[k];
    }
    if Whole(b, |a|) {
      assert forall k | |a| <= k < |b| :: b[k] == c[k];
    }
  }

  // ---------- the machine ----------

  class BufVec {
    const buf: seq<Buf>
    var idx: nat
    var off: nat

    ghost predicate Valid()
      reads this
    {
      idx <= |buf| && (idx < |buf| ==> off <= buf[idx].size)
    }

    ghost function Rest(): nat
      requires Valid()
      reads this
    {
      Left(buf, idx, off)
    }

    ghost function Bytes(pos: Positions): seq<Loc>
      requires Valid()
      reads this
    {
      Slots(buf, idx, off, pos)
    }

    /** `fuse_bufvec_advance`; its two asserts hold. */
    method Advance(len: nat) returns (more: bool)
      requires Valid() && (idx < |buf| ==> off + len <= buf[idx].size)
      modifies this
      ensures Valid() && (old(idx) == |buf| ==> !more && idx == old(idx) && off == old(off))
      ensures old(idx) < |buf| ==> Steps(buf, old(idx), old(off), len, idx, off) && more == (idx < |buf|)
    {
      if idx >= |buf| {
        return false;
      }
      off := off + len;
      assert off <= buf[idx].size;
      if off == buf[idx].size {
        idx := idx + 1;
        if idx == |buf| {
          return false;
        }
        off := 0;
      }
      return true;
    }

    /** `fuse_buf_size`, with a 64-bit size_t */
    method Size() returns (size: nat)
      requires forall i | 0 <= i < |buf| :: buf[i].size <= SIZE_MAX
      ensures Left(buf, 0, 0) < SIZE_MAX ==> size == Left(buf, 0, 0)
    {
      size := 0;
      for i := 0 to |buf|
        invariant Left(buf, 0, 0) < SIZE_MAX ==> size + Left(buf, i, 0) == Left(buf, 0, 0)
      {
        if buf[i].size == SIZE_MAX {
          size := SIZE_MAX;
        } else {
          size := (size + buf[i].size) % (SIZE_MAX + 1);
        }
      }
    }
  }

  class Machine {
    var store: Store
    var pos: Positions
    ghost var calls: seq<Call>    // all reads and writes so far

    /** Any transfer that moves `n` bytes from one place to another in one step. */
    method Move(dst: Loc, src: Loc, n: nat)
      modifies this`store
      ensures Streamed(old(store), store, Range(dst, n), Range(src, n), n, NOTHING)
    {
      var s := store;
      store := (l: Loc) => if l.place == dst.place && dst.off <= l.off < dst.off + n
                           then s(Loc(src.place, src.off + (l.off - dst.off))) else s(l);
      PutStreams(s, store, dst, src, n);
    }

    /** memcpy must not be called on overlapping regions. */
    method Memcpy(dst: nat, src: nat, n: nat)
      requires dst + n <= src || src + n <= dst
      modifies this`store
      ensures Streamed(old(store), store, Range(Loc(InMemory, dst), n), Range(Loc(InMemory, src), n), n, NOTHING)
    {
      Move(Loc(InMemory, dst), Loc(InMemory, src), n);
    }

    method Memmove(dst: nat, src: nat, n: nat)
      modifies this`store
      ensures Streamed(old(store), store, Range(Loc(InMemory, dst), n), Range(Loc(InMemory, src), n), n, NOTHING)
    {
      Move(Loc(InMemory, dst), Loc(InMemory, src), n);
    }

    /** One read, pread, write or pwrite between memory and the descriptor of `b`: -1 and an error,
        or any number of bytes up to what was asked for. A stream advances by that number. */
    method SystemCall(dst: Loc, src: Loc, b: Buf, len: nat) returns (res: int, errno: int)
      modifies this
      ensures -1 <= res <= len && errno > 0 && calls == old(calls) + [Call(len, res, errno, b.Fd? && b.retry)]
      ensures res == -1 ==> store == old(store) && pos == old(pos)
      ensures res >= 0 ==>
        pos == Advanced(old(pos), b, res) && Streamed(old(store), store, Range(dst, len), Range(src, len), res, NOTHING)
    {
      errno :| errno > 0;
      res :| -1 <= res <= len;
      if res >= 0 {
        Move(dst, src, res);
        StreamedPart(old(store), store, dst, src, len, res, NOTHING);
        pos := Advanced(pos, b, res);
      }
      calls := calls + [Call(len, res, errno, b.Fd? && b.retry)];
    }

    /** One call of the retry loops. The ghost arguments are the state before the first one, and where it
        began. */
    method NextCall(dst: Buf, dstAt: nat, src: Buf, srcAt: nat, left: nat, b: Buf, ghost store0: Store,
                    ghost pos0: Positions, ghost d: Loc, ghost s: Loc, ghost copied: nat) returns (res: int, errno: int)
      requires (dst.Fd? && src.Mem? && b == dst) || (dst.Mem? && src.Fd? && b == src)
      requires copied <= dstAt && d == Start(dst, dstAt - copied, pos0)
      requires copied <= srcAt && s == Start(src, srcAt - copied, pos0)
      requires Repeating(store0, pos0, store, pos, d, s, copied + left, b, copied)
      modifies this
      ensures -1 <= res <= left && errno > 0 && calls == old(calls) + [Call(left, res, errno, b.retry)]
      ensures res == -1 ==> store == old(store) && pos == old(pos)
      ensures res >= 0 ==> Repeating(store0, pos0, store, pos, d, s, copied + left, b, copied + res)
    {
      ghost var store1, pos1 := store, pos;
      RepeatAt(store0, pos0, store1, pos1, dst, dstAt, src, srcAt, copied + left, b, d, s, copied);
      hide *;
      res, errno := SystemCall(Start(dst, dstAt, pos), Start(src, srcAt, pos), b, left);
      if res >= 0 {
        RepeatOn(store0, pos0, store1, pos1, store, pos, d, s, copied + left, b, copied, res);
      }
    }

    /** `fuse_buf_write` and `fuse_buf_read` are this loop, with the descriptor on either side. */
    method Repeat(dst: Buf, dstOff: nat, src: Buf, srcOff: nat, len: nat, b: Buf) returns (r: int)
      requires (dst.Fd? && src.Mem? && b == dst) || (dst.Mem? && src.Fd? && b == src)
      modifies this
      ensures Tells(old(calls), calls, r, len) && (len == 0 <==> calls == old(calls))
      ensures !b.retry ==> |calls| <= |old(calls)| + 1
      ensures 0 <= r < len && b.retry ==> calls != [] && calls[|calls| - 1].got <= 0
      ensures r <= len && (r < 0 ==> store == old(store) && pos == old(pos))
      ensures r >= 0 ==> pos == Advanced(old(pos), b, r)
      ensures r >= 0 ==>
        Streamed(old(store), store, Range(Start(dst, dstOff, old(pos)), len), Range(Start(src, srcOff, old(pos)), len),
                 r, NOTHING)
    {
      var copied, res, errno := 0, 0, 0;
      var dstAt, srcAt, left := dstOff, srcOff, len;
      ghost var store0, pos0, d, s := store, pos, Start(dst, dstOff, pos), Start(src, srcOff, pos);
      ghost var calls0 := calls;
      RepeatStarts(store, pos, d, s, len, b);
      NoCalls(calls);
      hide *;
      while left > 0
        invariant 0 <= copied <= len && left == len - copied && dstAt == dstOff + copied && srcAt == srcOff + copied
        invariant Repeating(store0, pos0, store, pos, d, s, len, b, copied)
        invariant copied == 0 ==> store == old(store) && pos == old(pos)
        invariant calls0 <= calls && Whole(calls, |calls0|) && (calls == calls0 <==> copied == 0)
        invariant !b.retry ==> calls == calls0
        decreases left
      {
        ghost var calls1 := calls;
        res, errno := NextCall(dst, dstAt, src, srcAt, left, b, store0, pos0, d, s, copied);
        OneCall(calls0, calls1, calls, Call(left, res, errno, b.retry));
        if res == -1 {
          if copied == 0 {
            Telling(calls0, calls, -errno, len);
            return -errno;
          }
          break;
        }
        copied := copied + res;
        if res == 0 {
          break;
        }
        if !b.retry {
          break;
        }
        dstAt, srcAt, left := dstAt + res, srcAt + res, left - res;
      }
      Telling(calls0, calls, copied, len);
      RepeatEnds(store0, pos0, store, pos, d, s, len, b, copied);
      return copied;
    }

    /** One turn of the loop of `fuse_buf_fd_to_fd`: read into the array on the stack, then write. */
    method Chunk(dst: Buf, dstAt: nat, src: Buf, srcAt: nat, thisLen: nat, tmp: Buf)
      returns (res: int, ghost lost: nat)
      requires dst.Fd? && src.Fd? && tmp.Mem? && tmp.size == SCRATCH && 0 < thisLen <= SCRATCH
      modifies this
      ensures res <= thisLen && Tells(old(calls), calls, res, thisLen)
      ensures Separate(dst, src) ==>
        Arrived(old(store), old(pos), store, dst, dstAt, src, srcAt, thisLen, AtLeast0(res), Frame(tmp.addr, SCRATCH))
      ensures AtLeast0(res) + lost <= thisLen
      ensures pos == Advanced(Advanced(old(pos), src, AtLeast0(res) + lost), dst, AtLeast0(res))
    {
      hide Streamed, Arrived, Whole, Failed, Idle;
      lost := 0;
      ghost var store1, pos1 := store, pos;
      NothingArrived(store, pos, dst, dstAt, src, srcAt, thisLen, Frame(tmp.addr, SCRATCH));
      res := Repeat(tmp, 0, src, srcAt, thisLen, src);
      if res < 0 {
        return;
      }
      ghost var store2 := store;
      var readLen := res;
      NothingStreamed(store, Piece(dst, dstAt, readLen, Advanced(pos1, src, readLen)),
                      Range(Loc(InMemory, tmp.addr), readLen));
      if readLen > 0 {
        ghost var calls1 := calls;
        res := Repeat(dst, dstAt, tmp, 0, readLen, dst);
        WholeJoin(old(calls), calls1, calls);
      }
      lost := readLen - AtLeast0(res);
      if Separate(dst, src) {
        OneChunk(store1, pos1, store2, store, dst, dstAt, src, srcAt, thisLen, readLen, AtLeast0(res), tmp.addr);
      }
    }

    /** `fuse_buf_fd_to_fd`; `at` is where its array of 4096 bytes lies on the stack. */
    method FdToFd(dst: Buf, dstOff: nat, src: Buf, srcOff: nat, len: nat, at: nat)
      returns (r: int, ghost lost: nat)
      requires dst.Fd? && src.Fd?
      modifies this
      ensures lost <= SCRATCH && AtLeast0(r) + lost <= len
      ensures Separate(dst, src) ==>
        pos == Advanced(Advanced(old(pos), src, AtLeast0(r) + lost), dst, AtLeast0(r))
      ensures r <= len && Tells(old(calls), calls, r, len)
      ensures Copied(old(store), old(pos), store, pos, dst, dstOff, src, srcOff, len, r, Frame(at, SCRATCH))
    {
      hide Streamed, Clear, Start, Arrived, Piece, Advanced, Both, Separate, Whole, Failed, Idle;
      NoCalls(calls);
      ghost var store0, pos0, frame := store, pos, Frame(at, SCRATCH);
      ghost var clean := Apart(pos, dst, dstOff, src, srcOff, len, frame);
      var tmp := Mem(at, SCRATCH);
      var copied, dstAt, srcAt, left := 0, dstOff, srcOff, len;
      lost := 0;
      NothingArrived(store, pos, dst, dstOff, src, srcOff, len, frame);
      while left > 0
        invariant 0 <= copied <= len && left == len - copied && dstAt == dstOff + copied && srcAt == srcOff + copied
        invariant old(calls) <= calls && Whole(calls, |old(calls)|)
        invariant Separate(dst, src) ==> pos == Both(pos0, dst, src, copied)
        invariant lost == 0
        invariant clean ==> Arrived(store0, pos0, store, dst, dstOff, src, srcOff, len, copied, frame)
      {
        ghost var store1, pos1, calls1 := store, pos, calls;
        var thisLen := if tmp.size < left then tmp.size else left;
        var r2;
        r2, lost := Chunk(dst, dstAt, src, srcAt, thisLen, tmp);
        WholeJoin(old(calls), calls1, calls);
        if Separate(dst, src) {
          LostTwice(pos0, dst, src, copied, AtLeast0(r2), lost);
        }
        if clean {
          Extend(store0, pos0, store1, store, dst, dstOff, src, srcOff, len, copied, thisLen, AtLeast0(r2), frame);
        }
        if r2 < 0 {
          if copied == 0 {
            return r2, lost;
          }
          break;
        }
        if r2 == 0 {
          break;
        }
        copied := copied + r2;
        if r2 < thisLen {
          break;
        }
        dstAt, srcAt, left := dstAt + r2, srcAt + r2, left - r2;
      }
      BothAdvanced(pos0, dst, src, copied);
      return copied, lost;
    }

    /** `fuse_buf_copy_one` without splice */
    method CopyOne(dst: Buf, dstOff: nat, src: Buf, srcOff: nat, len: nat, at: nat) returns (r: int)
      modifies this
      ensures r <= len && Tells(old(calls), calls, r, len) && (dst.Mem? && src.Mem? ==> calls == old(calls))
      ensures Copied(old(store), old(pos), store, pos, dst, dstOff, src, srcOff, len, r, Frame(at, SCRATCH))
    {
      hide Clear, Streamed, Range, Copied, Whole, Failed, Idle;
      NoCalls(calls);
      ghost var frame, store0, pos0 := Frame(at, SCRATCH), store, pos;
      if src.Mem? && dst.Mem? {
        var dstmem, srcmem := dst.addr + dstOff, src.addr + srcOff;
        SameCopied(store, pos, dst, dstOff, src, srcOff, len, frame);
        if dstmem != srcmem {
          if dstmem + len <= srcmem || srcmem + len <= dstmem {
            Memcpy(dstmem, srcmem, len);
          } else {
            Memmove(dstmem, srcmem, len);
          }
          StreamedCopied(store0, pos0, store, pos, dst, dstOff, src, srcOff, len, len, frame);
        }
        return len;
      } else if src.Mem? || dst.Mem? {
        if src.Mem? {
          r := Repeat(dst, dstOff, src, srcOff, len, dst);
        } else {
          r := Repeat(dst, dstOff, src, srcOff, len, src);
        }
        if r < 0 {
          FailedCopied(store, pos, dst, dstOff, src, srcOff, len, r, frame);
        } else {
          StreamedCopied(store0, pos0, store, pos, dst, dstOff, src, srcOff, len, r, frame);
        }
      } else {
        ghost var lost;
        r, lost := FdToFd(dst, dstOff, src, srcOff, len, at);
      }
    }

    /** One turn of the loop of `fuse_buf_copy`: transfer between the current buffers and advance. */
    method Turn(dstv: BufVec, srcv: BufVec, at: nat, ghost clean: bool, ghost store0: Store, ghost d: seq<Loc>,
                ghost s: seq<Loc>, ghost copied: nat) returns (r: int, more: bool)
      requires dstv != srcv && dstv.Valid() && srcv.Valid() && dstv.idx < |dstv.buf| && srcv.idx < |srcv.buf|
      requires clean ==> SeparateAll(dstv.buf, srcv.buf) && Clear(d, s, Frame(at, SCRATCH))
      requires clean ==> Reached(store0, d, s, store, copied, dstv.Bytes(pos), srcv.Bytes(pos), Frame(at, SCRATCH))
      modifies this, dstv, srcv
      ensures dstv.Valid() && srcv.Valid() && srcv.Rest() == old(srcv.Rest()) - AtLeast0(r)
      ensures dstv.Rest() == old(dstv.Rest()) - AtLeast0(r) ||
        (srcv.idx == |srcv.buf| && dstv.Rest() == old(dstv.Rest()))
      ensures AtLeast0(r) <= old(dstv.Rest())
      ensures more ==> r >= 0 && dstv.Rest() == old(dstv.Rest()) - r
      ensures more ==>
        |dstv.buf| - dstv.idx + |srcv.buf| - srcv.idx < old(|dstv.buf| - dstv.idx + |srcv.buf| - srcv.idx)
      ensures old(calls) <= calls && (Memory(dstv.buf) && Memory(srcv.buf) ==> calls == old(calls))
      ensures r < 0 ==> !Whole(calls, |old(calls)|) && Failed(calls, r)
      ensures Whole(calls, |old(calls)|) && !more ==>
        srcv.idx == |srcv.buf| || (dstv.idx == |dstv.buf| && dstv.Rest() == old(dstv.Rest()) - r)
      ensures !Whole(calls, |old(calls)|) ==>
        !more && AtLeast0(r) < old(dstv.Rest()) && AtLeast0(r) < old(srcv.Rest()) && (r == 0 ==> Idle(calls))
      ensures clean ==> Streamed(store0, store, d, s, copied + AtLeast0(r), Frame(at, SCRATCH))
      ensures clean && more ==>
        Reached(store0, d, s, store, copied + AtLeast0(r), dstv.Bytes(pos), srcv.Bytes(pos), Frame(at, SCRATCH))
    {
      hide Streamed, Clear, Slots, Apart, Start, Reached, Copied, Left, Both, SeparateAll, Whole, Failed, Idle;
      var src, dst := srcv.buf[srcv.idx], dstv.buf[dstv.idx];
      var srcLen, dstLen := src.size - srcv.off, dst.size - dstv.off;
      var len := if srcLen < dstLen then srcLen else dstLen;
      ghost var store1, pos1, i, di, j, sj := store, pos, dstv.idx, dstv.off, srcv.idx, srcv.off;
      LeftFirst(dstv.buf, i, di);
      LeftFirst(srcv.buf, j, sj);
      r := CopyOne(dst, dstv.off, src, srcv.off, len, at);
      if clean {
        TurnArrives(store0, d, s, store1, copied, dstv.buf, i, di, srcv.buf, j, sj, pos1, store, pos, len, r,
                    Frame(at, SCRATCH));
      }
      if r < 0 {
        return r, false;
      }
      more := srcv.Advance(r);
      LeftStep(srcv.buf, j, sj, r, srcv.idx, srcv.off);
      if !more {
        return;
      }
      more := dstv.Advance(r);
      LeftStep(dstv.buf, i, di, r, dstv.idx, dstv.off);
      if !more {
        return;
      }
      if r < len {
        return r, false;
      }
      if clean {
        BothStep(dstv.buf, i, di, dstv.idx, dstv.off, srcv.buf, j, sj, srcv.idx, srcv.off, len, pos1);
      }
    }

    /** `fuse_buf_copy`. `at` is where the stack frame of a nested call comes to lie. */
    method BufCopy(dstv: BufVec, srcv: BufVec, at: nat) returns (r: int)
      requires dstv.Valid() && srcv.Valid() && forall i | 0 <= i < |dstv.buf| :: dstv.buf[i].size <= SIZE_MAX
      modifies this, dstv, srcv
      ensures dstv.Valid() && srcv.Valid()
      ensures dstv == srcv ==> store == old(store) && (Left(dstv.buf, 0, 0) < SIZE_MAX ==> r == Left(dstv.buf, 0, 0))
      ensures dstv != srcv ==> r <= old(dstv.Rest()) && r <= old(srcv.Rest())
      ensures old(calls) <= calls
      ensures dstv == srcv || (Memory(dstv.buf) && Memory(srcv.buf)) ==> calls == old(calls)
      ensures dstv != srcv && (forall k | |old(calls)| <= k < |calls| :: !Cut(calls[k])) ==>
        && r == (if old(dstv.Rest()) < old(srcv.Rest()) then old(dstv.Rest()) else old(srcv.Rest()))
        && (srcv.idx == |srcv.buf| || dstv.idx == |dstv.buf|)
      ensures dstv != srcv && (exists k | |old(calls)| <= k < |calls| :: Cut(calls[k])) ==>
        r < old(dstv.Rest()) && r < old(srcv.Rest()) && (r == 0 ==> Idle(calls)) && (r < 0 ==> Failed(calls, r))
      ensures dstv != srcv ==> srcv.Rest() == old(srcv.Rest()) - AtLeast0(r)
      ensures dstv != srcv && srcv.idx < |srcv.buf| ==> dstv.Rest() == old(dstv.Rest()) - AtLeast0(r)
      ensures (dstv != srcv && SeparateAll(dstv.buf, srcv.buf) &&
               Clear(old(dstv.Bytes(pos)), old(srcv.Bytes(pos)), Frame(at, SCRATCH))) ==>
        Streamed(old(store), store, old(dstv.Bytes(pos)), old(srcv.Bytes(pos)), AtLeast0(r), Frame(at, SCRATCH))
    {
      if dstv == srcv {
        r := dstv.Size();
      } else {
        r := CopyAll(dstv, srcv, at);
      }
    }

    /** The loop of `fuse_buf_copy` */
    method CopyAll(dstv: BufVec, srcv: BufVec, at: nat) returns (r: int)
      requires dstv.Valid() && srcv.Valid() && dstv != srcv
      modifies this, dstv, srcv
      ensures dstv.Valid() && srcv.Valid() && r <= old(dstv.Rest()) && r <= old(srcv.Rest())
      ensures old(calls) <= calls && (Memory(dstv.buf) && Memory(srcv.buf) ==> calls == old(calls))
      ensures Whole(calls, |old(calls)|) ==>
        && (r == old(dstv.Rest()) || r == old(srcv.Rest()))
        && (srcv.idx == |srcv.buf| || dstv.idx == |dstv.buf|)
      ensures !Whole(calls, |old(calls)|) ==>
        r < old(dstv.Rest()) && r < old(srcv.Rest()) && (r == 0 ==> Idle(calls)) && (r < 0 ==> Failed(calls, r))
      ensures srcv.Rest() == old(srcv.Rest()) - AtLeast0(r)
      ensures srcv.idx < |srcv.buf| ==> dstv.Rest() == old(dstv.Rest()) - AtLeast0(r)
      ensures (SeparateAll(dstv.buf, srcv.buf) &&
               Clear(old(dstv.Bytes(pos)), old(srcv.Bytes(pos)), Frame(at, SCRATCH))) ==>
        Streamed(old(store), store, old(dstv.Bytes(pos)), old(srcv.Bytes(pos)), AtLeast0(r), Frame(at, SCRATCH))
    {
      hide Streamed, Clear, Slots, Reached, SeparateAll, Whole, Failed, Idle;
      NoCalls(calls);
      ghost var frame, store0, d, s := Frame(at, SCRATCH), store, dstv.Bytes(pos), srcv.Bytes(pos);
      ghost var clean := SeparateAll(dstv.buf, srcv.buf) && Clear(d, s, frame);
      var copied := 0;
      StartReached(store, d, s, frame);
      ReachedStreamed(store, d, s, store, 0, d, s, frame);
      while srcv.idx < |srcv.buf| && dstv.idx < |dstv.buf|
        invariant dstv.Valid() && srcv.Valid()
        invariant copied + dstv.Rest() == old(dstv.Rest()) && copied + srcv.Rest() == old(srcv.Rest())
        invariant clean ==> Reached(store0, d, s, store, copied, dstv.Bytes(pos), srcv.Bytes(pos), frame)
        invariant clean ==> Streamed(store0, store, d, s, copied, frame)
        invariant old(calls) <= calls && Whole(calls, |old(calls)|)
        invariant Memory(dstv.buf) && Memory(srcv.buf) ==> calls == old(calls)
        decreases |dstv.buf| - dstv.idx + |srcv.buf| - srcv.idx
      {
        var more;
        ghost var calls1 := calls;
        r, more := Turn(dstv, srcv, at, clean, store0, d, s, copied);
        WholeJoin(old(calls), calls1, calls);
        if r < 0 {
          if copied == 0 {
            return r;
          }
          break;
        }
        copied := copied + r;
        if !more {
          break;
        }
      }
      return copied;
    }
  }
}
