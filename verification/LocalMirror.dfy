/** The local mirror of a blob version (bindings/blob-fuse/local_mirror.hpp): a buffer that
    is filled lazily, page prefix by page prefix, and written locally.  It must read as a
    plain array that starts as the version and takes the local writes. */
module LocalMirror {
  import opened Arithmetic
  import opened Metadata
  import opened ByteRead

  /** Byte p lies in the valid prefix of its page. */
  predicate Known(ps: nat, chunk: seq<nat>, p: nat)
    requires ps > 0
  {
    p / ps < |chunk| && p % ps < chunk[p / ps]
  }

  /** A known byte of the buffer is the array's byte; an unknown byte of the array is still
      the version's. */
  predicate ByteOk(ps: nat, remote: seq<Byte>, content: seq<Byte>, mapping: seq<Byte>, chunk: seq<nat>, p: nat)
    requires ps > 0 && p < |remote| && p < |content| && p < |mapping|
  {
    if Known(ps, chunk, p) then mapping[p] == content[p] else content[p] == remote[p]
  }

  ghost predicate Mirror(ps: nat, remote: seq<Byte>, content: seq<Byte>, mapping: seq<Byte>, chunk: seq<nat>) {
    && ps > 0 && |remote| == |chunk| * ps && |content| == |remote| && |mapping| == |remote|
    && (forall i :: 0 <= i < |chunk| ==> chunk[i] <= ps)
    && forall p: nat :: p < |remote| ==> ByteOk(ps, remote, content, mapping, chunk, p)
  }

  /** dst with [a, b) replaced from src. */
  function Splice(dst: seq<Byte>, src: seq<Byte>, a: nat, b: nat): (r: seq<Byte>)
    requires a <= b <= |dst| == |src|
  {
    dst[..a] + src[a..b] + dst[b..]
  }

  lemma SpliceAt(dst: seq<Byte>, src: seq<Byte>, a: nat, b: nat, p: nat)
    requires a <= b <= |dst| == |src| && p < |dst|
    ensures |Splice(dst, src, a, b)| == |dst|
    ensures Splice(dst, src, a, b)[p] == if a <= p < b then src[p] else dst[p]
  {
  }

  /** Chunk entries index..e-1 set to a full page. */
  function Full(ps: nat, chunk: seq<nat>, index: nat, e: nat): (r: seq<nat>)
    requires index <= e <= |chunk|
    ensures |r| == |chunk|
    ensures forall i :: 0 <= i < |chunk| ==> r[i] == if index <= i < e then ps else chunk[i]
  {
    chunk[..index] + seq(e - index, _ => ps) + chunk[e..]
  }

  /** A remote read of the unknown bytes from page `index` up to page e keeps the mirror and
      overwrites no locally written byte. */
  lemma FetchKeeps(ps: nat, remote: seq<Byte>, content: seq<Byte>, mapping: seq<Byte>, chunk: seq<nat>, index: nat, e: nat)
    requires Mirror(ps, remote, content, mapping, chunk)
    requires index < e <= |chunk| && forall q :: index < q < e ==> chunk[q] == 0
    ensures index * ps + chunk[index] <= e * ps <= |remote|
    ensures var a := index * ps + chunk[index];
            Mirror(ps, remote, content, Splice(mapping, remote, a, e * ps), Full(ps, chunk, index, e))
  {
    MulStep(index, e, ps);
    if e < |chunk| { MulOrder(e, |chunk|, ps); }
    var a := index * ps + chunk[index];
    var mapping', chunk' := Splice(mapping, remote, a, e * ps), Full(ps, chunk, index, e);
    SpliceLength(mapping, remote, a, e * ps);
    forall p: nat | p < |remote| ensures ByteOk(ps, remote, content, mapping', chunk', p) {
      assert ByteOk(ps, remote, content, mapping, chunk, p);
      SpliceAt(mapping, remote, a, e * ps, p);
      FetchByte(ps, chunk, index, e, p);
    }
  }

  lemma SpliceLength(dst: seq<Byte>, src: seq<Byte>, a: nat, b: nat)
    requires a <= b <= |dst| == |src|
    ensures |Splice(dst, src, a, b)| == |dst|
  {
  }

  /** Which bytes a fetch brings in: unknown ones of the run, which are all known after. */
  lemma FetchByte(ps: nat, chunk: seq<nat>, index: nat, e: nat, p: nat)
    requires ps > 0 && index < e <= |chunk| && chunk[index] <= ps && p < |chunk| * ps
    requires forall q :: index < q < e ==> chunk[q] == 0
    ensures var fetched := index * ps + chunk[index] <= p < e * ps;
            && (fetched ==> !Known(ps, chunk, p) && Known(ps, Full(ps, chunk, index, e), p))
            && (!fetched ==> (Known(ps, chunk, p) <==> Known(ps, Full(ps, chunk, index, e), p)))
  {
    var q := p / ps;
    DivMod(p, ps);
    PageOf(ps, p, q);
    if q < index { MulStep(q, index, ps); } else if index < q { MulStep(index, q, ps); }
    if q < e { MulStep(q, e, ps); } else if e < q { MulStep(e, q, ps); }
    if |chunk| <= q { MulOrder(q, |chunk|, ps); }
  }

  // ---- Local writes ----

  /** The prefix of page q that a write ending at `end` makes valid. */
  function Reach(ps: nat, end: nat, q: nat): nat
  {
    if end <= q * ps then 0 else if end - q * ps < ps then end - q * ps else ps
  }

  /** chunk_map after a write to pages index.. up to `end`. */
  function Raised(ps: nat, chunk: seq<nat>, index: nat, end: nat): (r: seq<nat>)
    ensures |r| == |chunk|
    ensures forall q :: 0 <= q < |chunk| ==>
      r[q] == if index <= q && chunk[q] < Reach(ps, end, q) then Reach(ps, end, q) else chunk[q]
  {
    seq(|chunk|, q requires 0 <= q < |chunk| =>
      if index <= q && chunk[q] < Reach(ps, end, q) then Reach(ps, end, q) else chunk[q])
  }

  /** The buffer after a write at `off` whose first page lacked the bytes before `off`. */
  function Written(mapping: seq<Byte>, remote: seq<Byte>, buf: seq<Byte>, gap: nat, off: nat): seq<Byte>
    requires |mapping| == |remote| && off + |buf| <= |mapping|
  {
    var m := mapping[..off] + buf + mapping[off + |buf|..];
    if gap < off then Splice(m, remote, gap, off) else m
  }

  lemma WrittenAt(mapping: seq<Byte>, remote: seq<Byte>, buf: seq<Byte>, gap: nat, off: nat, p: nat)
    requires |mapping| == |remote| && off + |buf| <= |mapping| && p < |mapping|
    ensures |Written(mapping, remote, buf, gap, off)| == |mapping|
    ensures Written(mapping, remote, buf, gap, off)[p] ==
            if off <= p < off + |buf| then buf[p - off] else if gap <= p < off then remote[p] else mapping[p]
  {
    var m := mapping[..off] + buf + mapping[off + |buf|..];
    if gap < off {
      SpliceAt(m, remote, gap, off, p);
    }
  }

  function Overwrite(content: seq<Byte>, off: nat, buf: seq<Byte>): (r: seq<Byte>)
    requires off + |buf| <= |content|
    ensures |r| == |content|
    ensures forall p :: 0 <= p < |r| ==> r[p] == if off <= p < off + |buf| then buf[p - off] else content[p]
  {
    content[..off] + buf + content[off + |buf|..]
  }

  /** Which bytes a write makes known: with the first page's prefix closed up to `off`,
      every byte before the end that it touches. */
  lemma WriteByte(ps: nat, chunk: seq<nat>, off: nat, end: nat, p: nat)
    requires ps > 0 && off <= end && off / ps < |chunk| && p < |chunk| * ps && end <= |chunk| * ps
    requires forall q :: 0 <= q < |chunk| ==> chunk[q] <= ps
    ensures var index := off / ps; var gap := index * ps + chunk[index];
            var chunk' := Raised(ps, chunk, index, end);
            && (off <= p < end ==> Known(ps, chunk', p))
            && (gap <= p < off ==> !Known(ps, chunk, p) && Known(ps, chunk', p))
            && (p < off && p < gap ==> (Known(ps, chunk', p) <==> Known(ps, chunk, p)))
            && (end <= p ==> (Known(ps, chunk', p) <==> Known(ps, chunk, p)))
  {
    var index, q := off / ps, p / ps;
    DivMod(p, ps);
    DivMod(off, ps);
    PageOf(ps, p, q);
    PageOf(ps, off, index);
    Distribute(q, 1, ps);
    Distribute(index, 1, ps);
    if |chunk| <= q { MulOrder(q, |chunk|, ps); }
    if q < index { MulStep(q, index, ps); } else if index < q { MulStep(index, q, ps); }
  }

  /** A local write keeps the mirror: the array takes exactly the written bytes. */
  lemma WriteKeeps(ps: nat, remote: seq<Byte>, content: seq<Byte>, mapping: seq<Byte>, chunk: seq<nat>, off: nat, buf: seq<Byte>)
    requires Mirror(ps, remote, content, mapping, chunk)
    requires off + |buf| <= |remote| && off / ps < |chunk|
    ensures var index := off / ps; var gap := index * ps + chunk[index];
            Mirror(ps, remote, Overwrite(content, off, buf), Written(mapping, remote, buf, gap, off),
                   Raised(ps, chunk, index, off + |buf|))
  {
    hide Written, Reach;
    var index, end := off / ps, off + |buf|;
    var gap := index * ps + chunk[index];
    var content', mapping', chunk' := Overwrite(content, off, buf), Written(mapping, remote, buf, gap, off), Raised(ps, chunk, index, end);
    WrittenLength(mapping, remote, buf, gap, off);
    RaisedBound(ps, chunk, index, end);
    forall p: nat | p < |remote| ensures ByteOk(ps, remote, content', mapping', chunk', p) {
      hide Known;
      assert ByteOk(ps, remote, content, mapping, chunk, p);
      WrittenAt(mapping, remote, buf, gap, off, p);
      WriteByte(ps, chunk, off, end, p);
    }
  }

  lemma WrittenLength(mapping: seq<Byte>, remote: seq<Byte>, buf: seq<Byte>, gap: nat, off: nat)
    requires |mapping| == |remote| && off + |buf| <= |mapping|
    ensures |Written(mapping, remote, buf, gap, off)| == |mapping|
  {
  }

  lemma RaisedBound(ps: nat, chunk: seq<nat>, index: nat, end: nat)
    requires forall i :: 0 <= i < |chunk| ==> chunk[i] <= ps
    ensures forall i :: 0 <= i < |chunk| ==> Raised(ps, chunk, index, end)[i] <= ps
  {
  }

  /** A write whose gap read fails has already changed the buffer: the bytes of it that fall
      into valid prefixes are visible, the others are not. */
  function TornWrite(ps: nat, content: seq<Byte>, chunk: seq<nat>, off: nat, buf: seq<Byte>): (r: seq<Byte>)
    requires ps > 0 && off + |buf| <= |content|
    ensures |r| == |content|
    ensures forall p :: 0 <= p < |r| ==>
      r[p] == if off <= p < off + |buf| && Known(ps, chunk, p) then buf[p - off] else content[p]
  {
    seq(|content|, p requires 0 <= p < |content| =>
      if off <= p < off + |buf| && Known(ps, chunk, p) then buf[p - off] else content[p])
  }

  lemma TornKeeps(ps: nat, remote: seq<Byte>, content: seq<Byte>, mapping: seq<Byte>, chunk: seq<nat>, off: nat, buf: seq<Byte>)
    requires Mirror(ps, remote, content, mapping, chunk) && off + |buf| <= |remote|
    ensures Mirror(ps, remote, TornWrite(ps, content, chunk, off, buf), Overwrite(mapping, off, buf), chunk)
  {
    hide Known;
    forall p: nat | p < |remote|
      ensures ByteOk(ps, remote, TornWrite(ps, content, chunk, off, buf), Overwrite(mapping, off, buf), chunk, p)
    {
      assert ByteOk(ps, remote, content, mapping, chunk, p);
    }
  }

  /** All bytes of [off, end) below page `index` are known. */
  ghost predicate KnownUpTo(ps: nat, chunk: seq<nat>, off: nat, end: nat, index: nat)
    requires ps > 0
  {
    forall p: nat :: off <= p < end && p < index * ps ==> Known(ps, chunk, p)
  }

  /** A byte of [from, end) is not known. */
  ghost predicate SomeUnknown(ps: nat, chunk: seq<nat>, from: nat, end: nat)
    requires ps > 0
  {
    exists p: nat :: from <= p < end && !Known(ps, chunk, p)
  }

  function PageStart(ps: nat, off: nat): nat
    requires ps > 0
  {
    (off / ps) * ps
  }

  lemma FirstIsUnknown(ps: nat, chunk: seq<nat>, index: nat, end: nat)
    requires ps > 0 && index < |chunk| && chunk[index] < Reach(ps, end, index)
    ensures SomeUnknown(ps, chunk, index * ps, end)
  {
    var p := FirstUnknown(ps, chunk, index);
  }

  lemma UnknownWider(ps: nat, chunk: seq<nat>, from: nat, end: nat, from': nat, end': nat)
    requires ps > 0 && SomeUnknown(ps, chunk, from, end) && from' <= from && end <= end'
    ensures SomeUnknown(ps, chunk, from', end')
  {
  }

  /** A page whose prefix reaches as far as the request needs is known that far. */
  lemma PageKnown(ps: nat, chunk: seq<nat>, off: nat, end: nat, index: nat)
    requires ps > 0 && index < |chunk| && KnownUpTo(ps, chunk, off, end, index) && Reach(ps, end, index) <= chunk[index]
    ensures KnownUpTo(ps, chunk, off, end, index + 1)
  {
    Distribute(index, 1, ps);
    forall p: nat | off <= p < end && p < (index + 1) * ps ensures Known(ps, chunk, p) {
      if index * ps <= p {
        PageOf(ps, p, index);
        DivMod(p, ps);
      }
    }
  }

  /** After a fetch everything up to the end of the run is known. */
  lemma RunKnown(ps: nat, chunk: seq<nat>, off: nat, end: nat, index: nat, e: nat)
    requires ps > 0 && index < e <= |chunk| && chunk[index] <= ps && KnownUpTo(ps, chunk, off, end, index)
    requires forall q :: index < q < e ==> chunk[q] == 0
    ensures KnownUpTo(ps, Full(ps, chunk, index, e), off, end, e)
  {
    forall p: nat | off <= p < end && p < e * ps ensures Known(ps, Full(ps, chunk, index, e), p) {
      if e < |chunk| { MulOrder(e, |chunk|, ps); }
      FetchByte(ps, chunk, index, e, p);
      if p < index * ps + chunk[index] && index * ps <= p {
        Distribute(index, 1, ps);
        PageOf(ps, p, index);
        DivMod(p, ps);
      }
    }
  }

  /** Known bytes read as the plain array. */
  lemma KnownReads(ps: nat, remote: seq<Byte>, content: seq<Byte>, mapping: seq<Byte>, chunk: seq<nat>, off: nat, end: nat, index: nat)
    requires Mirror(ps, remote, content, mapping, chunk) && off <= end <= |remote|
    requires KnownUpTo(ps, chunk, off, end, index) && end <= index * ps
    ensures mapping[off..end] == content[off..end]
  {
    forall p: nat | off <= p < end ensures mapping[p] == content[p] {
      assert Known(ps, chunk, p);
      assert ByteOk(ps, remote, content, mapping, chunk, p);
    }
  }

  // ---- Commit ----

  predicate Dirty(ps: nat, dirty: seq<bool>, p: nat)
    requires ps > 0
  {
    p / ps < |dirty| && dirty[p / ps]
  }

  /** Bytes of pages not marked as written are as at the last commit. */
  ghost predicate Clean(ps: nat, base: seq<Byte>, content: seq<Byte>, dirty: seq<bool>) {
    && ps > 0 && |base| == |content|
    && forall p: nat :: p < |content| && !Dirty(ps, dirty, p) ==> content[p] == base[p]
  }

  /** The blob once the marked pages below page `stop` have been sent from the buffer. */
  function Patched(ps: nat, base: seq<Byte>, mapping: seq<Byte>, dirty: seq<bool>, stop: nat): (r: seq<Byte>)
    requires ps > 0 && |mapping| == |base|
    ensures |r| == |base|
    ensures forall p: nat :: p < |r| ==> r[p] == if Dirty(ps, dirty, p) && p / ps < stop then mapping[p] else base[p]
  {
    seq(|base|, p requires 0 <= p < |base| => if Dirty(ps, dirty, p) && p / ps < stop then mapping[p] else base[p])
  }

  /** Sending a run of marked pages moves the commit past it. */
  lemma PatchRun(ps: nat, base: seq<Byte>, mapping: seq<Byte>, dirty: seq<bool>, index: nat, stop: nat)
    requires ps > 0 && |mapping| == |base| == |dirty| * ps && index <= stop <= |dirty|
    requires forall q :: index <= q < stop ==> dirty[q]
    ensures index * ps <= stop * ps <= |base|
    ensures Splice(Patched(ps, base, mapping, dirty, index), mapping, index * ps, stop * ps) == Patched(ps, base, mapping, dirty, stop)
  {
    PageOrder(ps, index, stop);
    PageOrder(ps, stop, |dirty|);
    hide Patched, Splice;
    var before, after := Patched(ps, base, mapping, dirty, index), Patched(ps, base, mapping, dirty, stop);
    SpliceLength(before, mapping, index * ps, stop * ps);
    forall p: nat | p < |base| ensures Splice(before, mapping, index * ps, stop * ps)[p] == after[p] {
      SpliceAt(before, mapping, index * ps, stop * ps, p);
      PageBounds(ps, p, index);
      PageBounds(ps, p, stop);
    }
  }

  lemma PageOrder(ps: nat, a: nat, b: nat)
    requires a <= b
    ensures a * ps <= b * ps
  {
    if a < b { MulStep(a, b, ps); }
  }

  lemma PageBounds(ps: nat, p: nat, q: nat)
    requires ps > 0
    ensures p < q * ps <==> p / ps < q
  {
    DivMod(p, ps);
    if p / ps < q { MulStep(p / ps, q, ps); } else if q < p / ps { MulStep(q, p / ps, ps); }
  }

  /** A page that is not marked can be passed over. */
  lemma PatchSkip(ps: nat, base: seq<Byte>, mapping: seq<Byte>, dirty: seq<bool>, index: nat)
    requires ps > 0 && |mapping| == |base| && (index < |dirty| ==> !dirty[index])
    ensures Patched(ps, base, mapping, dirty, index + 1) == Patched(ps, base, mapping, dirty, index)
  {
    hide Patched;
    var a, b := Patched(ps, base, mapping, dirty, index + 1), Patched(ps, base, mapping, dirty, index);
    forall p: nat | p < |base| ensures a[p] == b[p] {
    }
  }

  /** A commit makes the blob equal to the plain array if and only if, in the marked pages,
      the buffer holds the version's bytes wherever nothing is known. */
  lemma CommitRightIff(ps: nat, remote: seq<Byte>, content: seq<Byte>, mapping: seq<Byte>, chunk: seq<nat>,
                       base: seq<Byte>, dirty: seq<bool>, at: nat)
    requires Mirror(ps, remote, content, mapping, chunk) && Clean(ps, base, content, dirty) && at >= |dirty| == |chunk|
    ensures Patched(ps, base, mapping, dirty, at) == content <==>
            forall p: nat :: p < |content| && Dirty(ps, dirty, p) && !Known(ps, chunk, p) ==> mapping[p] == remote[p]
  {
    hide Patched, Known;
    var r := Patched(ps, base, mapping, dirty, at);
    forall p: nat | p < |content|
      ensures r[p] == content[p] <==> (Dirty(ps, dirty, p) && !Known(ps, chunk, p) ==> mapping[p] == remote[p])
    {
      assert ByteOk(ps, remote, content, mapping, chunk, p);
    }
  }

  /** When they do not agree the commit destroys data: one byte written at the start of a page that
      was never read sends the rest of the page as whatever the buffer file holds. */
  lemma PartialPageIsLost()
    ensures var ps, remote, chunk, dirty := 2, [7, 8], [1], [true];
            var content, mapping := Overwrite(remote, 0, [9]), [9, 0];
            && Mirror(ps, remote, content, mapping, chunk) && Clean(ps, remote, content, dirty)
            && Patched(ps, remote, mapping, dirty, 1) != content
  {
    var content := Overwrite([7, 8], 0, [9]);
    assert content == [9, 8];
    forall p: nat | p < 2 ensures ByteOk(2, [7, 8], content, [9, 0], [1], p) {
    }
    assert Dirty(2, [true], 1);
    assert Patched(2, [7, 8], [9, 0], [true], 1)[1] == 0;
  }

  /** The marks that are left once the commit stands at page `index`. */
  ghost predicate MarksLeft(marks: seq<bool>, dirty: seq<bool>, index: nat) {
    |marks| == |dirty| && forall q :: 0 <= q < |dirty| ==> (marks[q] <==> dirty[q] && index <= q)
  }

  /** How many runs of marked pages start below page n. */
  function RunStarts(dirty: seq<bool>, n: nat): nat {
    if n == 0 then 0
    else RunStarts(dirty, n - 1) + (if n - 1 < |dirty| && dirty[n - 1] && (n == 1 || !dirty[n - 2]) then 1 else 0)
  }

  /** No run reaches over the start of page i. */
  predicate Break(dirty: seq<bool>, i: nat) {
    i == 0 || i > |dirty| || !dirty[i - 1]
  }

  lemma {:induction false} InsideRun(dirty: seq<bool>, index: nat, stop: nat)
    requires index < stop <= |dirty| && Break(dirty, index) && forall q :: index <= q < stop ==> dirty[q]
    ensures RunStarts(dirty, stop) == RunStarts(dirty, index) + 1
    decreases stop
  {
    if index + 1 < stop { InsideRun(dirty, index, stop - 1); }
  }

  /** One run, and the page after it. */
  lemma OneRun(dirty: seq<bool>, index: nat, stop: nat)
    requires index < stop <= |dirty| && Break(dirty, index) && forall q :: index <= q < stop ==> dirty[q]
    requires stop < |dirty| ==> !dirty[stop]
    ensures RunStarts(dirty, stop + 1) == RunStarts(dirty, index) + 1 && Break(dirty, stop + 1)
  {
    InsideRun(dirty, index, stop);
  }

  lemma {:induction false} RunsEnd(dirty: seq<bool>, n: nat)
    requires n >= |dirty|
    ensures RunStarts(dirty, n) == RunStarts(dirty, |dirty|)
    decreases n
  {
    if n > |dirty| { RunsEnd(dirty, n - 1); }
  }

  lemma {:induction false} RunsGrow(dirty: seq<bool>, i: nat, n: nat)
    requires i <= n
    ensures RunStarts(dirty, i) <= RunStarts(dirty, n)
    decreases n
  {
    if i < n { RunsGrow(dirty, i, n - 1); }
  }

  lemma NoRunsYet(dirty: seq<bool>)
    ensures RunStarts(dirty, 0) == 0 && Break(dirty, 0)
  {
  }

  lemma AllMarksLeft(dirty: seq<bool>)
    ensures MarksLeft(dirty, dirty, 0)
  {
  }

  lemma NoMarksLeft(marks: seq<bool>, dirty: seq<bool>, index: nat)
    requires MarksLeft(marks, dirty, index) && index >= |marks|
    ensures forall q :: 0 <= q < |marks| ==> !marks[q]
  {
  }

  /** Every marked page is known in full. */
  ghost predicate FullyKnown(ps: nat, chunk: seq<nat>, dirty: seq<bool>) {
    |dirty| == |chunk| && forall q :: 0 <= q < |dirty| && dirty[q] ==> chunk[q] == ps
  }

  /** A commit of fully known pages, finished or not, leaves a blob that differs from the
      plain array in pages that are still marked only. */
  lemma CommitKeeps(ps: nat, remote: seq<Byte>, content: seq<Byte>, mapping: seq<Byte>, chunk: seq<nat>,
                    base: seq<Byte>, dirty: seq<bool>, index: nat, marks: seq<bool>)
    requires Mirror(ps, remote, content, mapping, chunk) && Clean(ps, base, content, dirty)
    requires FullyKnown(ps, chunk, dirty) && MarksLeft(marks, dirty, index)
    ensures Clean(ps, Patched(ps, base, mapping, dirty, index), content, marks)
    ensures index >= |dirty| ==> Patched(ps, base, mapping, dirty, index) == content
  {
    hide Known, Mirror, FullyKnown, MarksLeft;
    MirrorSizes(ps, remote, content, mapping, chunk);
    var r := Patched(ps, base, mapping, dirty, index);
    forall p: nat | p < |content| ensures r[p] == content[p] || (Dirty(ps, marks, p) && index < |dirty|) {
      if Dirty(ps, dirty, p) { CommittedByte(ps, remote, content, mapping, chunk, dirty, index, marks, p); }
    }
  }

  /** The first unknown byte of a page. */
  lemma FirstUnknown(ps: nat, chunk: seq<nat>, q: nat) returns (p: nat)
    requires q < |chunk| && chunk[q] < ps
    ensures p == q * ps + chunk[q] < |chunk| * ps && p / ps == q && !Known(ps, chunk, p)
  {
    p := q * ps + chunk[q];
    Distribute(q, 1, ps);
    MulStep(q, |chunk|, ps);
    PageOf(ps, p, q);
    DivOf(q, ps, chunk[q]);
    ModOf(q, ps, chunk[q]);
  }

  /** A buffer may hold anything at an unknown byte. */
  lemma UnknownIsFree(ps: nat, remote: seq<Byte>, content: seq<Byte>, mapping: seq<Byte>, chunk: seq<nat>, p: nat, b: Byte)
    requires Mirror(ps, remote, content, mapping, chunk) && p < |mapping| && !Known(ps, chunk, p)
    ensures Mirror(ps, remote, content, mapping[p := b], chunk)
  {
    hide Known;
    var mapping' := mapping[p := b];
    forall x: nat | x < |remote| ensures ByteOk(ps, remote, content, mapping', chunk, x) {
      assert ByteOk(ps, remote, content, mapping, chunk, x);
    }
  }

  /** A whole commit is certain to make the blob the plain array, whatever the buffer holds
      where nothing is known, if and only if every marked page is known in full. */
  lemma CommitCertainIff(ps: nat, remote: seq<Byte>, content: seq<Byte>, mapping: seq<Byte>, chunk: seq<nat>,
                         base: seq<Byte>, dirty: seq<bool>, at: nat)
    requires Mirror(ps, remote, content, mapping, chunk) && Clean(ps, base, content, dirty) && at >= |dirty| == |chunk|
    ensures (forall m: seq<Byte> :: Mirror(ps, remote, content, m, chunk) ==> Patched(ps, base, m, dirty, at) == content)
            <==> FullyKnown(ps, chunk, dirty)
  {
    hide Patched, Mirror, Clean;
    if FullyKnown(ps, chunk, dirty) {
      forall m: seq<Byte> | Mirror(ps, remote, content, m, chunk)
        ensures ps > 0 && |m| == |base| && Patched(ps, base, m, dirty, at) == content
      {
        MirrorSizes(ps, remote, content, m, chunk);
        CleanSizes(ps, base, content, dirty);
        CommitKeeps(ps, remote, content, m, chunk, base, dirty, at, seq(|dirty|, q requires 0 <= q < |dirty| => dirty[q] && at <= q));
      }
    } else {
      MirrorSizes(ps, remote, content, mapping, chunk);
      CleanSizes(ps, base, content, dirty);
      var q: nat :| q < |dirty| && dirty[q] && chunk[q] < ps;
      var p := FirstUnknown(ps, chunk, q);
      var wrong: Byte := if content[p] == 0 then 1 else 0;
      UnknownIsFree(ps, remote, content, mapping, chunk, p, wrong);
      WrongByte(ps, base, mapping[p := wrong], dirty, at, p);
    }
  }

  lemma CleanSizes(ps: nat, base: seq<Byte>, content: seq<Byte>, dirty: seq<bool>)
    requires Clean(ps, base, content, dirty)
    ensures ps > 0 && |base| == |content|
  {
  }

  lemma WrongByte(ps: nat, base: seq<Byte>, mapping: seq<Byte>, dirty: seq<bool>, at: nat, p: nat)
    requires ps > 0 && |mapping| == |base| && p < |base| && Dirty(ps, dirty, p) && at >= |dirty|
    ensures Patched(ps, base, mapping, dirty, at)[p] == mapping[p]
  {
  }

  lemma CommittedByte(ps: nat, remote: seq<Byte>, content: seq<Byte>, mapping: seq<Byte>, chunk: seq<nat>,
                      dirty: seq<bool>, index: nat, marks: seq<bool>, p: nat)
    requires Mirror(ps, remote, content, mapping, chunk) && p < |content| && FullyKnown(ps, chunk, dirty)
    requires MarksLeft(marks, dirty, index) && Dirty(ps, dirty, p)
    ensures if p / ps < index then mapping[p] == content[p] else Dirty(ps, marks, p) && index < |dirty|
  {
    DivMod(p, ps);
    assert ByteOk(ps, remote, content, mapping, chunk, p);
  }

  /** A write marks every page it touches. */
  lemma CleanWrite(ps: nat, base: seq<Byte>, content: seq<Byte>, dirty: seq<bool>, dirty': seq<bool>, off: nat, buf: seq<Byte>)
    requires Clean(ps, base, content, dirty) && off + |buf| <= |content| == |dirty| * ps && |dirty'| == |dirty|
    requires forall q :: 0 <= q < |dirty| ==> (dirty'[q] <==> dirty[q] || (off / ps <= q && q * ps < off + |buf|))
    ensures Clean(ps, base, Overwrite(content, off, buf), dirty')
  {
    hide Dirty;
    var content' := Overwrite(content, off, buf);
    forall p: nat | p < |content'| && !Dirty(ps, dirty', p) ensures content'[p] == base[p] {
      MarkedByte(ps, dirty, dirty', off, off + |buf|, p);
    }
  }

  lemma MarkedByte(ps: nat, dirty: seq<bool>, dirty': seq<bool>, off: nat, end: nat, p: nat)
    requires ps > 0 && p < |dirty| * ps && |dirty'| == |dirty|
    requires forall q :: 0 <= q < |dirty| ==> (dirty'[q] <==> dirty[q] || (off / ps <= q && q * ps < end))
    ensures Dirty(ps, dirty, p) || off <= p < end ==> Dirty(ps, dirty', p)
  {
    PageBounds(ps, p, |dirty|);
    if off <= p < end { PageTouched(ps, off, end, p); }
  }

  lemma PageTouched(ps: nat, off: nat, end: nat, p: nat)
    requires ps > 0 && off <= p < end
    ensures off / ps <= p / ps && (p / ps) * ps < end
  {
    DivMod(p, ps);
    DivMod(off, ps);
    if p / ps < off / ps { MulStep(p / ps, off / ps, ps); }
  }

  class Mirrored {
    const ps: nat
    const remote: seq<Byte>       // the blob version, whole pages
    var mapping: array<Byte>
    var chunkMap: array<nat>
    var writtenMap: array<bool>
    ghost var content: seq<Byte>  // the plain array this object stands for
    ghost var base: seq<Byte>     // the array as of the last commit
    ghost var tracked: bool       // every write and commit since then was whole

    ghost predicate Valid()
      reads this, mapping, chunkMap, writtenMap
    {
      && mapping as object != chunkMap as object && mapping as object != writtenMap as object
      && chunkMap as object != writtenMap as object
      && Mirror(ps, remote, content, mapping[..], chunkMap[..])
      && writtenMap.Length == chunkMap.Length && |base| == |remote|
      && (tracked ==> Clean(ps, base, content, writtenMap[..]))
    }

    constructor (ps: nat, pages: nat, remote: seq<Byte>)
      requires ps > 0 && |remote| == pages * ps
      ensures Valid() && content == base == remote && tracked && this.ps == ps && this.remote == remote
      ensures fresh(mapping) && fresh(chunkMap) && fresh(writtenMap) && chunkMap.Length == pages
    {
      this.ps := ps;
      this.remote := remote;
      mapping := new Byte[|remote|](_ => 0);
      chunkMap := new nat[pages](_ => 0);
      writtenMap := new bool[pages](_ => false);
      content, base, tracked := remote, remote, true;
      new;
      NothingKnown(ps, remote, mapping[..], chunkMap[..]);
    }

    /** A remote read of bytes [a, b) into the same place of the buffer. */
    method FetchRemote(a: nat, b: nat)
      requires a <= b <= mapping.Length == |remote|
      modifies mapping
      ensures mapping[..] == Splice(old(mapping[..]), remote, a, b)
    {
      for i := a to b
        invariant forall p :: 0 <= p < mapping.Length ==> mapping[p] == if a <= p < i then remote[p] else old(mapping[p])
      {
        mapping[i] := remote[i];
      }
      SpliceLength(old(mapping[..]), remote, a, b);
      forall p: nat | p < mapping.Length ensures mapping[p] == Splice(old(mapping[..]), remote, a, b)[p] {
        SpliceAt(old(mapping[..]), remote, a, b, p);
      }
    }

    /** How far one remote read goes: from the first unknown byte of page `index` over all
        wholly unknown pages that the request still needs. */
    method UnknownRun(index: nat, end: nat) returns (readOff: nat, readSize: nat, ghost e: nat)
      requires Valid() && index < chunkMap.Length && end <= |remote|
      requires chunkMap[index] < Reach(ps, end, index)
      ensures readOff == index * ps + chunkMap[index] && readOff + readSize == e * ps
      ensures index < e <= chunkMap.Length && forall q :: index < q < e ==> chunkMap[q] == 0
      ensures e < chunkMap.Length && e * ps < end ==> chunkMap[e] != 0
    {
      hide Mirror;
      MirrorSizes(ps, remote, content, mapping[..], chunkMap[..]);
      assert chunkMap[..][index] == chunkMap[index];
      readOff, readSize := index * ps, 0;
      e := index;
      if chunkMap[index] > 0 {
        readOff := readOff + chunkMap[index];
        readSize := readSize + ps - chunkMap[index];
        e := index + 1;
        Distribute(index, 1, ps);
      }
      DivExact(e, ps);
      while readOff + readSize < end && chunkMap[(readOff + readSize) / ps] == 0
        invariant readOff + readSize == e * ps && (e * ps) / ps == e && index <= e <= chunkMap.Length
        invariant e == index ==> chunkMap[index] == 0
        invariant readOff == index * ps + chunkMap[index]
        invariant readOff + readSize < end ==> e < chunkMap.Length
        invariant forall q :: index < q < e ==> chunkMap[q] == 0
        decreases chunkMap.Length - e
      {
        readSize := readSize + ps;
        Distribute(e, 1, ps);
        e := e + 1;
        DivExact(e, ps);
        if e * ps < end { MulOrder(e, chunkMap.Length, ps); }
      }
    }

    /** Mark pages index..e-1 as fully fetched. */
    method MarkFull(index: nat, e: nat)
      requires index <= e <= chunkMap.Length
      modifies chunkMap
      ensures chunkMap[..] == Full(ps, old(chunkMap[..]), index, e)
    {
      for i := index to e
        invariant forall j :: 0 <= j < chunkMap.Length ==> chunkMap[j] == if index <= j < i then ps else old(chunkMap[j])
      {
        chunkMap[i] := ps;
      }
    }

    /** One remote read of one unknown run. */
    method FetchRun(index: nat, end: nat, ghost off: nat) returns (next: nat)
      requires Valid() && index < chunkMap.Length && end <= |remote|
      requires chunkMap[index] < Reach(ps, end, index) && KnownUpTo(ps, chunkMap[..], off, end, index)
      modifies mapping, chunkMap
      ensures Valid() && content == old(content)
      ensures index < next <= chunkMap.Length && KnownUpTo(ps, chunkMap[..], off, end, next)
    {
      hide Splice, Reach, KnownUpTo, Mirror, Full;
      ghost var mapping0, chunk0 := mapping[..], chunkMap[..];
      MirrorSizes(ps, remote, content, mapping0, chunk0);
      var readOff, readSize;
      ghost var e;
      readOff, readSize, e := UnknownRun(index, end);
      assert forall q :: index < q < e ==> chunk0[q] == 0;
      FetchKeeps(ps, remote, content, mapping0, chunk0, index, e);
      RunKnown(ps, chunk0, off, end, index, e);
      FetchRemote(readOff, readOff + readSize);
      DivExact(e, ps);
      next := (readOff + readSize) / ps;
      MarkFull(index, next);
    }

    /** One turn of the loop of read: page `index` is already known far enough, or is fetched
        together with the unknown pages after it, or the remote read fails. */
    method StepPage(index: nat, end: nat, reliable: bool, ghost off: nat) returns (next: nat, ok: bool, fetched: bool)
      requires Valid() && index < chunkMap.Length && index * ps < end <= |remote|
      requires KnownUpTo(ps, chunkMap[..], off, end, index)
      modifies mapping, chunkMap
      ensures Valid() && content == old(content)
      ensures !ok ==> !reliable && SomeUnknown(ps, chunkMap[..], index * ps, end)
      ensures ok ==> index < next <= chunkMap.Length && KnownUpTo(ps, chunkMap[..], off, end, next)
    {
      hide Mirror, Reach, KnownUpTo;
      MirrorSizes(ps, remote, content, mapping[..], chunkMap[..]);
      assert chunkMap[..][index] == chunkMap[index];
      ReachIs(ps, end, index);
      fetched := chunkMap[index] < (if end - index * ps < ps then end - index * ps else ps);
      if !fetched {
        PageKnown(ps, chunkMap[..], off, end, index);
        return index + 1, true, false;
      } else if !reliable {
        FirstIsUnknown(ps, chunkMap[..], index, end);
        return index, false, true;
      }
      next := FetchRun(index, end, off);
      ok := true;
    }

    /** The loop of read: afterwards every byte of [off, end) is known.  `budget` is how many
        remote reads succeed before one fails. */
    method FetchUnknown(off: nat, end: nat, budget: nat) returns (ok: bool)
      requires Valid() && off < |remote| && off <= end <= |remote|
      modifies mapping, chunkMap
      ensures Valid() && content == old(content)
      ensures !ok ==> budget < chunkMap.Length && SomeUnknown(ps, chunkMap[..], PageStart(ps, off), end)
      ensures ok ==> end <= mapping.Length && end <= |content| && mapping[off..end] == content[off..end]
    {
      hide Mirror, Reach, KnownUpTo;
      FirstPage(off, end);
      var index, left := off / ps, budget;
      while index * ps < end
        invariant Valid() && content == old(content)
        invariant KnownUpTo(ps, chunkMap[..], off, end, index)
        invariant left <= budget <= left + index && off / ps <= index <= chunkMap.Length
        decreases chunkMap.Length - index
      {
        PageBelow(index, end);
        var next, fetched;
        next, ok, fetched := StepPage(index, end, left > 0, off);
        if !ok {
          PageOrder(ps, off / ps, index);
          UnknownWider(ps, chunkMap[..], index * ps, end, PageStart(ps, off), end);
          return false;
        }
        if fetched && left > 0 { left := left - 1; }
        index := next;
      }
      Slice(off, end, index);
      return true;
    }

    lemma FirstPage(off: nat, end: nat)
      requires Valid() && off < |remote|
      ensures ps > 0 && off / ps < chunkMap.Length && KnownUpTo(ps, chunkMap[..], off, end, off / ps)
    {
      hide KnownUpTo;
      StartKnown(ps, chunkMap[..], off, end);
      PageInside(ps, chunkMap.Length, off);
    }

    lemma PageBelow(index: nat, end: nat)
      requires Valid() && index * ps < end <= |remote|
      ensures index < chunkMap.Length
    {
      MulOrder(index, chunkMap.Length, ps);
    }

    lemma Slice(off: nat, end: nat, index: nat)
      requires Valid() && off <= end <= |remote| && KnownUpTo(ps, chunkMap[..], off, end, index) && end <= index * ps
      ensures end <= mapping.Length && end <= |content| && mapping[off..end] == content[off..end]
    {
      hide KnownUpTo;
      KnownReads(ps, remote, content, mapping[..], chunkMap[..], off, end, index);
      assert mapping[..][off..end] == mapping[off..end];
    }

    /** read: returns a slice of the buffer that equals the plain array, cut at the end of
        the blob; only a failing remote read makes it return nothing. */
    method Read(size: nat, off: nat, budget: nat) returns (count: nat, buf: seq<Byte>, ok: bool)
      requires Valid()
      modifies mapping, chunkMap
      ensures Valid() && content == old(content)
      ensures !ok ==> count == 0 && buf == [] && budget < chunkMap.Length && ps > 0
                      && SomeUnknown(ps, chunkMap[..], PageStart(ps, off), off + size)
      ensures ok && off >= |remote| ==> count == 0 && buf == []
      ensures ok && off < |remote| ==>
        count == (if off + size > |remote| then |remote| - off else size) && buf == content[off..off + count]
    {
      hide Mirror, PageStart, SomeUnknown;
      MirrorSizes(ps, remote, content, mapping[..], chunkMap[..]);
      if off >= |remote| {
        return 0, [], true;
      }
      var end := if off + size > |remote| then |remote| else off + size;
      ok := FetchUnknown(off, end, budget);
      if !ok {
        UnknownWider(ps, chunkMap[..], PageStart(ps, off), end, PageStart(ps, off), off + size);
        return 0, [], false;
      }
      MirrorSizes(ps, remote, content, mapping[..], chunkMap[..]);
      return end - off, mapping[off..end], true;
    }

    /** write: stores the bytes, closes the gap before them in their first page with a remote
        read, and extends the valid prefixes.  With a failing remote read the call returns
        false although part of the data may already be visible. */
    method Write(off: nat, buf: seq<Byte>, reliable: bool) returns (ok: bool)
      requires Valid()
      requires off < |remote| || off + |buf| > |remote|
      modifies this`content, this`tracked, mapping, chunkMap, writtenMap
      ensures Valid()
      ensures off + |buf| > |remote| ==> !ok && content == old(content)
      ensures tracked == (old(tracked) && (ok || off + |buf| > |remote|))
      ensures ok ==> off + |buf| <= |remote| && content == Overwrite(old(content), off, buf)
      ensures !ok && off + |buf| <= |remote| ==>
        && !reliable && content == TornWrite(ps, old(content), old(chunkMap[..]), off, buf)
        && ps > 0 && off / ps < chunkMap.Length && (off / ps) * ps + old(chunkMap[off / ps]) < off
      ensures ok ==> forall q :: 0 <= q < writtenMap.Length ==>
        (writtenMap[q] <==> old(writtenMap[q]) || (off / ps <= q && q * ps < off + |buf|))
    {
      hide Mirror, Reach, TornWrite, Written, Clean, Overwrite, Raised, Splice;
      MirrorSizes(ps, remote, content, mapping[..], chunkMap[..]);
      if off + |buf| > |remote| {
        return false;
      }
      ghost var mapping0, chunk0 := mapping[..], chunkMap[..];
      CopyIn(off, buf);
      var index := off / ps;
      PageInside(ps, chunkMap.Length, off);
      var gap := index * ps + chunkMap[index];
      if gap < off {
        if !reliable {
          TornKeeps(ps, remote, content, mapping0, chunk0, off, buf);
          content, tracked := TornWrite(ps, content, chunk0, off, buf), false;
          return false;
        }
        FetchRemote(gap, off);
      }
      assert mapping[..] == Written(mapping0, remote, buf, gap, off) by { WrittenIs(mapping0, remote, buf, gap, off); }
      WriteKeeps(ps, remote, content, mapping0, chunk0, off, buf);
      ghost var dirty0 := writtenMap[..];
      RaisePrefixes(index, off + |buf|);
      if tracked { KeepsClean(dirty0, off, buf); }
      content := Overwrite(content, off, buf);
      return true;
    }

    lemma KeepsClean(dirty: seq<bool>, off: nat, buf: seq<Byte>)
      requires Clean(ps, base, content, dirty) && off + |buf| <= |content| == |dirty| * ps && writtenMap.Length == |dirty|
      requires forall q :: 0 <= q < |dirty| ==> (writtenMap[q] <==> dirty[q] || (off / ps <= q && q * ps < off + |buf|))
      ensures Clean(ps, base, Overwrite(content, off, buf), writtenMap[..])
    {
      hide Clean, Overwrite;
      CleanWrite(ps, base, content, dirty, writtenMap[..], off, buf);
    }

    /** How far a run of marked pages goes; the bound is tested before the page. */
    method MarkedRun(index: nat) returns (stop: nat)
      requires ps > 0 && index < writtenMap.Length && |remote| == writtenMap.Length * ps && writtenMap[index]
      ensures index < stop <= writtenMap.Length && forall q :: index <= q < stop ==> writtenMap[q]
      ensures stop < writtenMap.Length ==> !writtenMap[stop]
    {
      stop := index + 1;
      PageBefore(stop);
      while stop * ps < |remote| && writtenMap[stop]
        invariant index < stop <= writtenMap.Length && (stop * ps < |remote| <==> stop < writtenMap.Length)
        invariant forall q :: index <= q < stop ==> writtenMap[q]
        decreases writtenMap.Length - stop
      {
        stop := stop + 1;
        PageBefore(stop);
      }
    }

    lemma PageBefore(q: nat)
      requires ps > 0 && |remote| == writtenMap.Length * ps
      ensures q * ps < |remote| <==> q < writtenMap.Length
    {
      MulOrder(q, writtenMap.Length, ps);
    }

    /** Clear the marks of one run. */
    method Unmark(index: nat, stop: nat)
      requires index <= stop <= writtenMap.Length
      modifies writtenMap
      ensures forall q :: 0 <= q < writtenMap.Length ==> (writtenMap[q] <==> old(writtenMap[q]) && !(index <= q < stop))
    {
      for i := index to stop
        invariant forall q :: 0 <= q < writtenMap.Length ==> (writtenMap[q] <==> old(writtenMap[q]) && !(index <= q < i))
      {
        writtenMap[i] := false;
      }
    }

    /** One turn of the commit loop: a marked run is sent and unmarked, an unmarked page
        passed over. */
    method CommitStep(blob: seq<Byte>, index: nat, works: bool, ghost latest: seq<Byte>, ghost dirty: seq<bool>)
      returns (blob': seq<Byte>, next: nat, ok: bool, sent: bool)
      requires ps > 0 && |latest| == mapping.Length == |remote| == writtenMap.Length * ps
      requires mapping as object != writtenMap as object && index < writtenMap.Length && MarksLeft(writtenMap[..], dirty, index)
      requires blob == Patched(ps, latest, mapping[..], dirty, index) && Break(dirty, index)
      modifies writtenMap
      ensures (sent <==> dirty[index]) && (ok && sent ==> works)
      ensures ok ==> RunStarts(dirty, next) == RunStarts(dirty, index) + (if sent then 1 else 0) && Break(dirty, next)
      ensures !ok ==> RunStarts(dirty, index + 1) > RunStarts(dirty, index)
      ensures !ok ==> !works && blob' == blob && MarksLeft(writtenMap[..], dirty, index)
      ensures ok ==> next > index && blob' == Patched(ps, latest, mapping[..], dirty, next) && MarksLeft(writtenMap[..], dirty, next)
    {
      hide Patched, Splice;
      if !writtenMap[index] {
        PatchSkip(ps, latest, mapping[..], dirty, index);
        return blob, index + 1, true, false;
      }
      var stop := MarkedRun(index);
      if !works {
        return blob, index, false, true;
      }
      PatchRun(ps, latest, mapping[..], dirty, index, stop);
      PatchSkip(ps, latest, mapping[..], dirty, stop);
      OneRun(dirty, index, stop);
      blob' := SendPages(blob, index, stop);
      Unmark(index, stop);
      return blob', stop + 1, true, true;
    }

    /** The commit loop. */
    method CommitAll(latest: seq<Byte>, budget: nat) returns (ok: bool, committed: seq<Byte>, ghost at: nat)
      requires ps > 0 && |latest| == mapping.Length == |remote| == writtenMap.Length * ps
      requires mapping as object != writtenMap as object
      modifies writtenMap
      ensures committed == Patched(ps, latest, mapping[..], old(writtenMap[..]), at)
      ensures MarksLeft(writtenMap[..], old(writtenMap[..]), at)
      ensures if ok then at >= writtenMap.Length else budget < writtenMap.Length
      ensures ok <==> RunStarts(old(writtenMap[..]), writtenMap.Length) <= budget
    {
      hide Patched, MarksLeft, RunStarts, Break;
      ghost var dirty := writtenMap[..];
      var index, left := 0, budget;
      committed := latest;
      PatchedNone(ps, latest, mapping[..], dirty);
      AllMarksLeft(dirty);
      NoRunsYet(dirty);
      PageBefore(0);
      while index * ps < |remote|
        invariant 0 <= left <= budget <= left + index && (index * ps < |remote| <==> index < writtenMap.Length)
        invariant committed == Patched(ps, latest, mapping[..], dirty, index) && MarksLeft(writtenMap[..], dirty, index)
        invariant left + RunStarts(dirty, index) == budget && Break(dirty, index)
        decreases writtenMap.Length - index
      {
        var next, sent;
        committed, next, ok, sent := CommitStep(committed, index, left > 0, latest, dirty);
        if !ok {
          RunsGrow(dirty, index + 1, |dirty|);
          return false, committed, index;
        }
        if sent && left > 0 { left := left - 1; }
        index := next;
        PageBefore(index);
      }
      RunsEnd(dirty, index);
      return true, committed, index;
    }

    /** commit: every run of marked pages is written to the blob, whose newest content is
        `latest`, and its marks are cleared.  `budget` is how many of these writes succeed.
        What is sent is the buffer, known or not (see CommitRightIff); when the marked pages
        are known in full the blob becomes the plain array, and a commit that fails half way
        can be repeated. */
    method Commit(latest: seq<Byte>, budget: nat) returns (ok: bool, committed: seq<Byte>, ghost at: nat)
      requires Valid() && |latest| == |remote|
      modifies this`base, this`tracked, writtenMap
      ensures Valid()
      ensures committed == Patched(ps, latest, mapping[..], old(writtenMap[..]), at)
      ensures MarksLeft(writtenMap[..], old(writtenMap[..]), at)
      ensures if ok then at >= writtenMap.Length else budget < writtenMap.Length
      ensures ok ==> forall q :: 0 <= q < writtenMap.Length ==> !writtenMap[q]
      ensures ok <==> RunStarts(old(writtenMap[..]), writtenMap.Length) <= budget
      ensures old(tracked) && latest == old(base) && FullyKnown(ps, chunkMap[..], old(writtenMap[..])) ==>
        tracked && base == committed && (ok ==> committed == content)
    {
      hide Mirror, Clean, Patched, FullyKnown, MarksLeft;
      MirrorSizes(ps, remote, content, mapping[..], chunkMap[..]);
      ghost var dirty := writtenMap[..];
      ok, committed, at := CommitAll(latest, budget);
      if ok { NoMarksLeft(writtenMap[..], dirty, at); }
      ghost var right := tracked && latest == base && FullyKnown(ps, chunkMap[..], dirty);
      base, tracked := committed, right;
      if right {
        CommitKeeps(ps, remote, content, mapping[..], chunkMap[..], latest, dirty, at, writtenMap[..]);
      }
    }

    /** One remote write of pages index..stop-1 of the buffer. */
    method SendPages(blob: seq<Byte>, index: nat, stop: nat) returns (blob': seq<Byte>)
      requires index <= stop && |blob| == mapping.Length && index * ps <= stop * ps <= |blob|
      ensures blob' == Splice(blob, mapping[..], index * ps, stop * ps)
    {
      blob' := blob[..index * ps] + mapping[index * ps..stop * ps] + blob[stop * ps..];
    }

    method CopyIn(off: nat, buf: seq<Byte>)
      requires off + |buf| <= mapping.Length
      modifies mapping
      ensures mapping[..] == Overwrite(old(mapping[..]), off, buf)
    {
      for i := 0 to |buf|
        invariant forall p :: 0 <= p < mapping.Length ==> mapping[p] == if off <= p < off + i then buf[p - off] else old(mapping[p])
      {
        mapping[off + i] := buf[i];
      }
    }

    /** The last loop of write. */
    method RaisePrefixes(first: nat, end: nat)
      requires ps > 0 && end <= chunkMap.Length * ps && writtenMap.Length == chunkMap.Length
      requires chunkMap as object != writtenMap as object
      modifies chunkMap, writtenMap
      ensures chunkMap[..] == Raised(ps, old(chunkMap[..]), first, end)
      ensures forall q :: 0 <= q < writtenMap.Length ==> (writtenMap[q] <==> old(writtenMap[q]) || (first <= q && q * ps < end))
    {
      var index := first;
      while index * ps < end
        invariant first <= index
        invariant forall q :: 0 <= q < chunkMap.Length ==>
          chunkMap[q] == if first <= q < index then Higher(old(chunkMap[q]), Reach(ps, end, q)) else old(chunkMap[q])
        invariant forall q :: 0 <= q < writtenMap.Length ==> (writtenMap[q] <==> old(writtenMap[q]) || first <= q < index)
        invariant forall q: nat :: first <= q < index ==> q * ps < end
        decreases end - index * ps
      {
        MulOrder(index, chunkMap.Length, ps);
        var need := if end - index * ps < ps then end - index * ps else ps;
        if chunkMap[index] < need {
          chunkMap[index] := need;
        }
        writtenMap[index] := true;
        Distribute(index, 1, ps);
        index := index + 1;
      }
      forall q: nat | index <= q ensures end <= q * ps && Reach(ps, end, q) == 0 {
        if index < q { MulStep(index, q, ps); }
      }
    }
  }

  lemma PatchedNone(ps: nat, base: seq<Byte>, mapping: seq<Byte>, dirty: seq<bool>)
    requires ps > 0 && |mapping| == |base|
    ensures Patched(ps, base, mapping, dirty, 0) == base
  {
  }

  function Higher(x: nat, y: nat): nat { if x < y then y else x }

  lemma MirrorSizes(ps: nat, remote: seq<Byte>, content: seq<Byte>, mapping: seq<Byte>, chunk: seq<nat>)
    requires Mirror(ps, remote, content, mapping, chunk)
    ensures ps > 0 && |remote| == |chunk| * ps && |content| == |remote| && |mapping| == |remote|
    ensures forall i :: 0 <= i < |chunk| ==> chunk[i] <= ps
  {
  }

  lemma NothingKnown(ps: nat, remote: seq<Byte>, mapping: seq<Byte>, chunk: seq<nat>)
    requires ps > 0 && |remote| == |mapping| == |chunk| * ps && forall i :: 0 <= i < |chunk| ==> chunk[i] == 0
    ensures Mirror(ps, remote, remote, mapping, chunk)
  {
    hide Known;
    forall p: nat | p < |remote| ensures ByteOk(ps, remote, remote, mapping, chunk, p) {
      Unknown(ps, chunk, p);
    }
  }

  lemma Unknown(ps: nat, chunk: seq<nat>, p: nat)
    requires ps > 0 && forall i :: 0 <= i < |chunk| ==> chunk[i] == 0
    ensures !Known(ps, chunk, p)
  {
    DivMod(p, ps);
  }

  lemma ReachIs(ps: nat, end: nat, q: nat)
    requires q * ps < end
    ensures Reach(ps, end, q) == if end - q * ps < ps then end - q * ps else ps
  {
  }

  lemma StartKnown(ps: nat, chunk: seq<nat>, off: nat, end: nat)
    requires ps > 0
    ensures KnownUpTo(ps, chunk, off, end, off / ps)
  {
    DivMod(off, ps);
  }

  lemma PageInside(ps: nat, n: nat, off: nat)
    requires ps > 0 && off < n * ps
    ensures off / ps < n
  {
    DivMod(off, ps);
    MulOrder(off / ps, n, ps);
  }

  lemma WrittenIs(mapping: seq<Byte>, remote: seq<Byte>, buf: seq<Byte>, gap: nat, off: nat)
    requires |mapping| == |remote| && off + |buf| <= |mapping|
    ensures Written(mapping, remote, buf, gap, off) ==
            if gap < off then Splice(Overwrite(mapping, off, buf), remote, gap, off) else Overwrite(mapping, off, buf)
  {
    assert mapping[..off] + buf + mapping[off + |buf|..] == Overwrite(mapping, off, buf);
  }

}
