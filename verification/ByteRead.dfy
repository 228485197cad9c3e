/** object_handler::read (client/object_handler.cpp:204-314): an unaligned byte range is
    split into page reads that go straight into the caller's buffer. */
module ByteRead {
  import opened Arithmetic
  import opened Metadata

  /** One request: bytes [pageOffset, pageOffset + length) of page number `page` of the
      range go to buffer[bufferOffset..]. */
  datatype Piece = Piece(page: nat, pageOffset: nat, bufferOffset: nat, length: nat)

  /** What must be read from page p when the range is bytes [d, e) of its own pages. */
  function PieceFor(ps: nat, d: nat, e: nat, p: nat): Piece
    requires InRange(ps, d, e, p)
  {
    var start, stop := Max(p * ps, d), Min((p + 1) * ps, e);
    Distribute(p, 1, ps);
    Piece(p, start - p * ps, start - d, stop - start)
  }

  /** The number of pages that the range meets. */
  function PageCount(ps: nat, d: nat, size: nat): nat
    requires ps > 0
  {
    (d + size) / ps + (if (d + size) % ps == 0 then 0 else 1)
  }

  predicate InRange(ps: nat, d: nat, e: nat, p: nat) {
    p * ps < e && d < (p + 1) * ps && d < e
  }

  /** Every page counted meets the range. */
  lemma CountedPages(ps: nat, d: nat, size: nat, p: nat)
    requires ps > 0 && d < ps && size > 0 && p < PageCount(ps, d, size)
    ensures InRange(ps, d, d + size, p)
  {
    var e := d + size;
    var q, r := e / ps, e % ps;
    assert e == q * ps + r;
    if p < q { MulStep(p, q, ps); }
    Distribute(p, 1, ps);
    assert p * ps >= 0;
  }

  /** The pages read, in the order of the requests: an unaligned first page, an unaligned
      last page, then the whole pages. */
  function Order(l: nat, r: nat, n: nat): seq<nat>
    requires l <= r <= n
  {
    (if l > 0 then [0] else []) + (if r < n then [n - 1] else []) + seq(r - l, i requires 0 <= i => l + i)
  }

  ghost predicate Planned(ps: nat, d: nat, e: nat, pages: seq<nat>, pieces: seq<Piece>) {
    && |pieces| == |pages|
    && forall i :: 0 <= i < |pages| ==> InRange(ps, d, e, pages[i]) && pieces[i] == PieceFor(ps, d, e, pages[i])
  }

  /** left_part: what the first page still holds from an unaligned offset on. */
  lemma LeftPart(ps: nat, offset: nat)
    requires ps > 0
    ensures (ps - offset % ps) % ps == if offset % ps == 0 then 0 else ps - offset % ps
  {
    if offset % ps == 0 {
      ModOf(1, ps, 0);
    } else {
      ModOf(0, ps, ps - offset % ps);
    }
  }

  /** The end of the range has the same remainder seen from the first page. */
  lemma EndRemainder(ps: nat, offset: nat, size: nat)
    requires ps > 0
    ensures (offset + size) % ps == (offset % ps + size) % ps
    ensures (offset / ps) * ps <= offset && size + offset - (offset / ps) * ps == offset % ps + size
  {
    var q, e := offset / ps, offset % ps + size;
    DivMod(offset, ps);
    DivMod(e, ps);
    Distribute(q, e / ps, ps);
    ModOf(q + e / ps, ps, e % ps);
  }

  lemma LeftPiece(ps: nat, d: nat, size: nat)
    requires ps > 0 && 0 < d < ps && size > 0
    ensures InRange(ps, d, d + size, 0)
    ensures PieceFor(ps, d, d + size, 0) == Piece(0, d, 0, if ps - d < size then ps - d else size)
  {
  }

  /** A page after the first starts a whole number of pages after the unaligned part. */
  lemma LaterPiece(ps: nat, d: nat, size: nat, p: nat, l: nat)
    requires ps > 0 && d < ps && size > 0 && p < PageCount(ps, d, size)
    requires l == (if d == 0 then 0 else 1) && l <= p
    ensures InRange(ps, d, d + size, p)
    ensures var left := if d == 0 then 0 else ps - d;
            PieceFor(ps, d, d + size, p) ==
            Piece(p, 0, left + (p - l) * ps, Min(ps, d + size - p * ps))
  {
    CountedPages(ps, d, size, p);
    Distribute(p, 1, ps);
    Distribute(p - l, l, ps);
    if d > 0 { MulStep(0, p, ps); }
  }

  /** A page is whole unless it is the last one and the range ends inside it. */
  lemma LastPiece(ps: nat, d: nat, size: nat, p: nat)
    requires ps > 0 && d < ps && size > 0 && p < PageCount(ps, d, size)
    ensures var e := d + size;
            Min(ps, e - p * ps) == if p == PageCount(ps, d, size) - 1 && e % ps != 0 then e % ps else ps
  {
    var e := d + size;
    DivMod(e, ps);
    if p < e / ps { MulStep(p, e / ps, ps); }
  }

  function FirstWhole(d: nat): nat { if d == 0 then 0 else 1 }

  /** One past the last page that is read whole. */
  function EndWhole(ps: nat, d: nat, size: nat): nat
    requires ps > 0 && size > 0
  {
    var n := PageCount(ps, d, size);
    if ((d + size) % ps != 0 && n > 1) || (d == 0 && size < ps) then (if n == 0 then 0 else n - 1) else n
  }

  lemma SmallRange(ps: nat, size: nat)
    requires 0 < size < ps
    ensures size / ps == 0 && size % ps == size && PageCount(ps, 0, size) == 1
  {
    DivMod(size, ps);
    if size / ps > 0 { MulStep(0, size / ps, ps); }
  }

  lemma OrderBounds(ps: nat, d: nat, size: nat)
    requires ps > 0 && d < ps && size > 0
    ensures 1 <= PageCount(ps, d, size) && FirstWhole(d) <= EndWhole(ps, d, size) <= PageCount(ps, d, size) <= EndWhole(ps, d, size) + 1
    ensures EndWhole(ps, d, size) < PageCount(ps, d, size) ==> (d + size) % ps != 0
    ensures EndWhole(ps, d, size) == PageCount(ps, d, size) && (d + size) % ps != 0 ==> PageCount(ps, d, size) == 1 == FirstWhole(d)
  {
    DivMod(d + size, ps);
    if d == 0 && size < ps { SmallRange(ps, size); }
    if (d + size) / ps == 0 { assert d + size < ps; }
  }

  lemma PlannedNone(ps: nat, d: nat, e: nat)
    ensures Planned(ps, d, e, [], [])
  {
  }

  lemma PlannedPush(ps: nat, d: nat, e: nat, pages: seq<nat>, pieces: seq<Piece>, p: nat)
    requires Planned(ps, d, e, pages, pieces) && InRange(ps, d, e, p)
    ensures Planned(ps, d, e, pages + [p], pieces + [PieceFor(ps, d, e, p)])
  {
    hide PieceFor, InRange;
  }

  /** The requests of one read.  A range of size 0 is not asked for: the page count would
      be 0 or the range would lie inside one page, and the last page index would wrap. */
  method ReadPieces(offset: nat, size: nat, ps: nat) returns (pieces: seq<Piece>)
    requires ps > 0 && size > 0
    ensures var d := offset % ps;
            FirstWhole(d) <= EndWhole(ps, d, size) <= PageCount(ps, d, size) &&
            Planned(ps, d, d + size, Order(FirstWhole(d), EndWhole(ps, d, size), PageCount(ps, d, size)), pieces)
  {
    hide PieceFor, InRange, Min, Max, Planned;
    ghost var d, e := offset % ps, offset % ps + size;
    EndRemainder(ps, offset, size);
    LeftPart(ps, offset);
    OrderBounds(ps, d, size);
    var newOffset := (offset / ps) * ps;
    var n := (size + offset - newOffset) / ps + (if (offset + size) % ps == 0 then 0 else 1);
    var leftPart := (ps - offset % ps) % ps;
    var rightPart := (offset + size) % ps;
    pieces := [];
    PlannedNone(ps, d, e);
    var l := 0;
    if offset % ps != 0 {
      l := 1;
      LeftPiece(ps, d, size);
      PlannedPush(ps, d, e, [], pieces, 0);
      assert [] + [0 as nat] == [0];
      pieces := pieces + [Piece(0, ps - leftPart, 0, if leftPart < size then leftPart else size)];
    }
    ghost var pages := if l > 0 then [0] else [];
    assert Planned(ps, d, e, pages, pieces);
    var r := n;
    if ((offset + size) % ps != 0 && r > 1) || (offset % ps == 0 && size < ps) {
      r := r - 1;
      LaterPiece(ps, d, size, r, l);
      LastPiece(ps, d, size, r);
      PlannedPush(ps, d, e, pages, pieces, r);
      pieces := pieces + [Piece(r, 0, leftPart + (r - l) * ps, rightPart)];
      pages := pages + [n - 1];
    }
    assert Planned(ps, d, e, pages, pieces);
    ghost var ends := pages;
    assert ends + [] == ends;
    for i := l to r
      invariant pages == ends + seq(i - l, j requires 0 <= j => l + j)
      invariant Planned(ps, d, e, pages, pieces)
    {
      LaterPiece(ps, d, size, i, l);
      LastPiece(ps, d, size, i);
      PlannedPush(ps, d, e, pages, pieces, i);
      pieces := pieces + [Piece(i, 0, leftPart + (i - l) * ps, ps)];
      pages := pages + [i];
    }
  }

  predicate Covers(piece: Piece, x: nat) {
    piece.bufferOffset <= x < piece.bufferOffset + piece.length
  }

  lemma PageOf(ps: nat, y: nat, p: nat)
    requires ps > 0
    ensures y / ps == p <==> p * ps <= y < (p + 1) * ps
  {
    DivMod(y, ps);
    Distribute(p, 1, ps);
    if p < y / ps { MulStep(p, y / ps, ps); } else if y / ps < p { MulStep(y / ps, p, ps); }
  }

  /** The piece of page p covers exactly the buffer bytes that page p holds, at their place. */
  lemma PieceCovers(ps: nat, d: nat, size: nat, p: nat, x: nat)
    requires ps > 0 && d < ps && size > 0 && InRange(ps, d, d + size, p)
    ensures Covers(PieceFor(ps, d, d + size, p), x) <==> x < size && (d + x) / ps == p
    ensures Covers(PieceFor(ps, d, d + size, p), x) ==>
              var piece := PieceFor(ps, d, d + size, p);
              piece.pageOffset + (x - piece.bufferOffset) == (d + x) % ps
  {
    PageOf(ps, d + x, p);
    DivMod(d + x, ps);
  }

  /** Every page of the range is requested exactly once. */
  lemma OrderOnce(l: nat, r: nat, n: nat, p: nat)
    requires l <= r <= n <= r + 1 && l <= 1 && p < n
    ensures multiset(Order(l, r, n))[p] == 1
    ensures forall i :: 0 <= i < |Order(l, r, n)| ==> Order(l, r, n)[i] < n
  {
    var whole := seq(r - l, i requires 0 <= i => l + i);
    CountInterval(l, r - l, p);
  }

  lemma {:induction false} CountInterval(l: nat, m: nat, p: nat)
    ensures multiset(seq(m, i requires 0 <= i => l + i))[p] == if l <= p < l + m then 1 else 0
  {
    if m > 0 {
      var s, t := seq(m, i requires 0 <= i => l + i), seq(m - 1, i requires 0 <= i => l + i);
      assert s == t + [l + m - 1];
      CountInterval(l, m - 1, p);
    }
  }

  function OrderOf(ps: nat, d: nat, size: nat): seq<nat>
    requires ps > 0 && d < ps && size > 0
  {
    OrderBounds(ps, d, size);
    Order(FirstWhole(d), EndWhole(ps, d, size), PageCount(ps, d, size))
  }

  /** The pieces tile the buffer: byte x is written by one piece only, the one of page
      (d + x) / ps, from byte (d + x) % ps of that page. */
  lemma PiecesTile(ps: nat, d: nat, size: nat, pieces: seq<Piece>, x: nat)
    requires ps > 0 && d < ps && size > 0 && Planned(ps, d, d + size, OrderOf(ps, d, size), pieces)
    ensures x < size ==> multiset(OrderOf(ps, d, size))[(d + x) / ps] == 1
    ensures forall i :: 0 <= i < |pieces| ==> (Covers(pieces[i], x) <==> x < size && OrderOf(ps, d, size)[i] == (d + x) / ps)
    ensures forall i :: 0 <= i < |pieces| && Covers(pieces[i], x) ==>
      pieces[i].pageOffset + (x - pieces[i].bufferOffset) == (d + x) % ps
  {
    hide Order, PieceFor, Covers, PageCount, EndWhole;
    OrderBounds(ps, d, size);
    forall i | 0 <= i < |pieces|
      ensures Covers(pieces[i], x) <==> x < size && OrderOf(ps, d, size)[i] == (d + x) / ps
      ensures Covers(pieces[i], x) ==> pieces[i].pageOffset + (x - pieces[i].bufferOffset) == (d + x) % ps
    {
      PieceCovers(ps, d, size, OrderOf(ps, d, size)[i], x);
    }
    if x < size {
      PageInCount(ps, d, size, x);
      OrderOnce(FirstWhole(d), EndWhole(ps, d, size), PageCount(ps, d, size), (d + x) / ps);
    }
  }

  lemma PageInCount(ps: nat, d: nat, size: nat, x: nat)
    requires ps > 0 && x < size
    ensures (d + x) / ps < PageCount(ps, d, size)
  {
    var e := d + size;
    DivMod(e, ps);
    DivMod(d + x, ps);
    var n := PageCount(ps, d, size);
    if n <= (d + x) / ps {
      if n < (d + x) / ps { MulStep(n, (d + x) / ps, ps); }
      if e / ps < n { Distribute(e / ps, 1, ps); }
    }
  }

  /** Copy one piece of a page into the buffer. */
  method CopyPiece(page: seq<Byte>, piece: Piece, buffer: array<Byte>)
    requires piece.pageOffset + piece.length <= |page| && piece.bufferOffset + piece.length <= buffer.Length
    modifies buffer
    ensures forall x: nat :: x < buffer.Length ==>
      buffer[x] == if Covers(piece, x) then page[piece.pageOffset + (x - piece.bufferOffset)] else old(buffer[x])
  {
    for j := 0 to piece.length
      invariant forall x: nat :: x < buffer.Length ==>
        buffer[x] == if piece.bufferOffset <= x < piece.bufferOffset + j then page[piece.pageOffset + (x - piece.bufferOffset)]
                     else old(buffer[x])
    {
      buffer[piece.bufferOffset + j] := page[piece.pageOffset + j];
    }
  }

  lemma PieceFits(ps: nat, d: nat, size: nat, p: nat)
    requires ps > 0 && d < ps && size > 0 && InRange(ps, d, d + size, p)
    ensures var piece := PieceFor(ps, d, d + size, p);
            piece.page == p && piece.pageOffset + piece.length <= ps && piece.bufferOffset + piece.length <= size
  {
    Distribute(p, 1, ps);
  }

  ghost predicate Pages(ps: nat, n: nat, pages: seq<seq<Byte>>) {
    |pages| == n && forall i :: 0 <= i < n ==> |pages[i]| == ps
  }

  lemma PieceOk(ps: nat, d: nat, size: nat, pieces: seq<Piece>, i: nat)
    requires ps > 0 && d < ps && size > 0 && Planned(ps, d, d + size, OrderOf(ps, d, size), pieces) && i < |pieces|
    ensures pieces[i].page == OrderOf(ps, d, size)[i] < PageCount(ps, d, size)
    ensures pieces[i].pageOffset + pieces[i].length <= ps && pieces[i].bufferOffset + pieces[i].length <= size
  {
    hide PieceFor, PageCount, Order, EndWhole, InRange;
    OrderBounds(ps, d, size);
    OrderOnce(FirstWhole(d), EndWhole(ps, d, size), PageCount(ps, d, size), 0);
    PieceFits(ps, d, size, OrderOf(ps, d, size)[i]);
  }

  /** What piece i copies into byte x is the right byte. */
  lemma PieceRight(ps: nat, d: nat, size: nat, pages: seq<seq<Byte>>, pieces: seq<Piece>, i: nat, x: nat)
    requires ps > 0 && d < ps && size > 0 && Planned(ps, d, d + size, OrderOf(ps, d, size), pieces) && i < |pieces|
    requires Pages(ps, PageCount(ps, d, size), pages) && Covers(pieces[i], x)
    ensures x < size && pieces[i].page < |pages| && x >= pieces[i].bufferOffset
    ensures pieces[i].pageOffset + (x - pieces[i].bufferOffset) < ps
    ensures Right(ps, d, pages, x, pages[pieces[i].page][pieces[i].pageOffset + (x - pieces[i].bufferOffset)])
  {
    hide Planned, PageCount, Order, EndWhole, OrderOf;
    PieceOk(ps, d, size, pieces, i);
    PiecesTile(ps, d, size, pieces, x);
    DivMod(d + x, ps);
  }

  lemma SomePieceCovers(ps: nat, d: nat, size: nat, pieces: seq<Piece>, x: nat)
    requires ps > 0 && d < ps && size > 0 && Planned(ps, d, d + size, OrderOf(ps, d, size), pieces) && x < size
    ensures exists j :: 0 <= j < |pieces| && Covers(pieces[j], x)
  {
    hide PieceFor, Covers, PageCount, Order, EndWhole, InRange;
    PiecesTile(ps, d, size, pieces, x);
    assert (d + x) / ps in multiset(OrderOf(ps, d, size));
    assert (d + x) / ps in OrderOf(ps, d, size);
  }

  /** The whole read, with pages[i] the content of page number offset / ps + i of the
      version: buffer[x] gets byte offset + x, for every x below size, and nothing else
      changes. */
  method Read(offset: nat, size: nat, ps: nat, pages: seq<seq<Byte>>, buffer: array<Byte>)
    requires ps > 0 && size > 0 && size <= buffer.Length
    requires Pages(ps, PageCount(ps, offset % ps, size), pages)
    modifies buffer
    ensures forall x: nat :: x < size ==> ByteAt(ps, offset, pages, x, buffer[x])
    ensures forall x: nat :: size <= x < buffer.Length ==> buffer[x] == old(buffer[x])
  {
    hide Planned, Covers, PageCount, OrderOf, Order, EndWhole, FirstWhole, Right, ByteAt;
    ghost var d := offset % ps;
    DivMod(offset, ps);
    var pieces := ReadPieces(offset, size, ps);
    assert Planned(ps, d, d + size, OrderOf(ps, d, size), pieces) by { OrderOfIs(ps, d, size); }
    for i := 0 to |pieces|
      invariant forall x: nat :: x < size && (exists j :: 0 <= j < i && Covers(pieces[j], x)) ==> Right(ps, d, pages, x, buffer[x])
      invariant forall x: nat :: size <= x < buffer.Length ==> buffer[x] == old(buffer[x])
    {
      PieceOk(ps, d, size, pieces, i);
      CopyPiece(pages[pieces[i].page], pieces[i], buffer);
      forall x: nat | x < buffer.Length && Covers(pieces[i], x) ensures x < size && Right(ps, d, pages, x, buffer[x]) {
        PieceRight(ps, d, size, pages, pieces, i, x);
      }
    }
    forall x: nat | x < size ensures ByteAt(ps, offset, pages, x, buffer[x]) {
      SomePieceCovers(ps, d, size, pieces, x);
      RightIsByteAt(ps, offset, pages, x, buffer[x]);
    }
  }

  lemma OrderOfIs(ps: nat, d: nat, size: nat)
    requires ps > 0 && d < ps && size > 0
    ensures FirstWhole(d) <= EndWhole(ps, d, size) <= PageCount(ps, d, size)
    ensures OrderOf(ps, d, size) == Order(FirstWhole(d), EndWhole(ps, d, size), PageCount(ps, d, size))
  {
    OrderBounds(ps, d, size);
  }

  /** Byte x of the result is the byte that page (d + x) / ps of the range holds at (d + x) % ps. */
  predicate Right(ps: nat, d: nat, pages: seq<seq<Byte>>, x: nat, b: Byte)
    requires ps > 0
  {
    var y := d + x;
    y / ps < |pages| && y % ps < |pages[y / ps]| && b == pages[y / ps][y % ps]
  }

  /** b is byte offset + x of the version, whose pages from number offset / ps on are given. */
  predicate ByteAt(ps: nat, offset: nat, pages: seq<seq<Byte>>, x: nat, b: Byte)
    requires ps > 0
  {
    var page, at := (offset + x) / ps, (offset + x) % ps;
    offset / ps <= page < offset / ps + |pages| && at < |pages[page - offset / ps]| && b == pages[page - offset / ps][at]
  }

  lemma RightIsByteAt(ps: nat, offset: nat, pages: seq<seq<Byte>>, x: nat, b: Byte)
    requires ps > 0 && Right(ps, offset % ps, pages, x, b)
    ensures ByteAt(ps, offset, pages, x, b)
  {
    SplitByte(ps, offset, x);
  }

  /** Where byte offset + x lies, seen from the page that holds byte `offset`. */
  lemma SplitByte(ps: nat, offset: nat, x: nat)
    requires ps > 0
    ensures var y := offset % ps + x;
            (offset + x) / ps == offset / ps + y / ps && (offset + x) % ps == y % ps
  {
    var m, y := offset / ps, offset % ps + x;
    DivMod(offset, ps);
    DivMod(y, ps);
    Distribute(m, y / ps, ps);
    DivOf(m + y / ps, ps, y % ps);
    ModOf(m + y / ps, ps, y % ps);
  }

}
