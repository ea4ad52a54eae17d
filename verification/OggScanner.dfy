/** The duration of an Opus file: the greatest granule position of its Ogg pages, in 48000ths of a
    second. The page layout is that of section 6 of RFC 3533. */
module OggScanner {
  import opened Options
  import opened Bytes
  import BodyStorage

  const CAPTURE: seq<Byte> := [0x4F, 0x67, 0x67, 0x53]  // "OggS"
  const HEADER := 27

  function FromLittleEndian(s: seq<Byte>): nat {
    if s == [] then 0 else s[0] + 256 * FromLittleEndian(s[1..])
  }

  function Sum(s: seq<Byte>): nat {
    if s == [] then 0 else Sum(s[..|s| - 1]) + s[|s| - 1]
  }

  function Max(a: int, b: int): int {
    if a > b then a else b
  }

  predicate CaptureAt(data: seq<Byte>, p: nat) {
    p + 4 <= |data| && data[p..p + 4] == CAPTURE
  }

  function Granule(header: seq<Byte>): int
    requires |header| == HEADER
  {
    Int64(FromLittleEndian(header[6..14]))
  }

  /** The greatest granule position from `p` on, or `total`. */
  function Scan(data: seq<Byte>, p: nat, total: int): int
    decreases if p <= |data| then |data| - p else 0
  {
    if p + HEADER > |data| then total
    else if !CaptureAt(data, p) then Scan(data, p + 1, total)
    else
      var found := Max(total, Granule(data[p..p + HEADER]));
      var table := p + HEADER + data[p + 26];
      if table > |data| then found
      else Scan(data, table + Sum(data[p + HEADER..table]), found)
  }

  lemma ScanPage(data: seq<Byte>, p: nat, total: int, buf: seq<Byte>, table: seq<Byte>)
    requires p + HEADER <= |data| && buf == data[p..p + HEADER] && buf[0..4] == CAPTURE
    requires p + HEADER + buf[26] <= |data| && table == data[p + HEADER..p + HEADER + buf[26]]
    ensures Scan(data, p, total) == Scan(data, p + HEADER + |table| + Sum(table), Max(total, Granule(buf)))
  {
    assert buf[0..4] == data[p..p + 4];
  }

  lemma ScanByte(data: seq<Byte>, p: nat, total: int, buf: seq<Byte>)
    requires p + HEADER <= |data| && buf == data[p..p + HEADER] && buf[0..4] != CAPTURE
    ensures Scan(data, p, total) == Scan(data, p + 1, total)
  {
    assert buf[0..4] == data[p..p + 4];
  }

  lemma ScanEnds(data: seq<Byte>, p: nat, total: int)
    requires p + HEADER > |data|
    ensures Scan(data, p, total) == total
  {
  }

  lemma ScanCut(data: seq<Byte>, p: nat, total: int, buf: seq<Byte>)
    requires p + HEADER <= |data| && buf == data[p..p + HEADER] && buf[0..4] == CAPTURE
    requires p + HEADER + buf[26] > |data|
    ensures Scan(data, p, total) == Max(total, Granule(buf))
  {
    assert buf[0..4] == data[p..p + 4];
  }

  /** The scanning loop. */
  method GetOpusDuration(r: BodyStorage.File) returns (duration: real)
    modifies r`pos
    ensures duration == Scan(r.content, 0, 0) as real / 48000.0
  {
    var _, _ := r.Seek(0, 0);
    var total := 0;
    ghost var scanned := Scan(r.content, 0, 0);
    while true
      invariant scanned == Scan(r.content, r.pos, total)
      decreases if r.pos <= |r.content| then |r.content| - r.pos else 0
    {
      var more;
      total, more := ScanOne(r, total);
      if !more {
        break;
      }
    }
    duration := total as real / 48000.0;
  }

  /** One round of the loop: a byte further, behind a page, or out of it. */
  method ScanOne(r: BodyStorage.File, total: int) returns (found: int, more: bool)
    modifies r`pos
    ensures more ==> r.pos > old(r.pos) && old(r.pos) < |r.content| && Scan(r.content, old(r.pos), total) == Scan(r.content, r.pos, found)
    ensures !more ==> Scan(r.content, old(r.pos), total) == found
  {
    ghost var p := r.pos;
    found := total;
    var buf, error := r.Read(HEADER);
    if error == Some(BodyStorage.EOF) || |buf| < HEADER {
      ScanEnds(r.content, p, total);
      return found, false;
    }
    assert buf == r.content[p..p + HEADER];
    if buf[0..4] != CAPTURE {
      ScanByte(r.content, p, total, buf);
      var _, failed := r.Seek(-26, 1);
      return found, true;
    }
    var granule := Int64(FromLittleEndian(buf[6..14]));
    if granule > total {
      found := granule;
    }
    more := SkipPage(r, total, buf);
  }

  /** Reads the segment table and goes past the page's body. */
  method SkipPage(r: BodyStorage.File, ghost total: int, buf: seq<Byte>) returns (more: bool)
    requires |buf| == HEADER <= r.pos <= |r.content| && buf == r.content[r.pos - HEADER..r.pos] && buf[0..4] == CAPTURE
    modifies r`pos
    ensures var p, found := old(r.pos) - HEADER, Max(total, Granule(buf));
      && (more ==> r.pos >= old(r.pos) && Scan(r.content, p, total) == Scan(r.content, r.pos, found))
      && (!more ==> Scan(r.content, p, total) == found)
  {
    ghost var p := r.pos - HEADER;
    var segmentTable, short := r.ReadFull(buf[26]);
    if short.Some? {
      ScanCut(r.content, p, total, buf);
      return false;
    }
    assert segmentTable == r.content[p + HEADER..p + HEADER + buf[26]];
    ScanPage(r.content, p, total, buf, segmentTable);
    var pageSize := AddUp(segmentTable);
    var _, failed := r.Seek(pageSize, 1);
    more := true;
  }

  method AddUp(table: seq<Byte>) returns (size: nat)
    ensures size == Sum(table)
  {
    size := 0;
    for i := 0 to |table|
      invariant size == Sum(table[..i])
    {
      assert table[..i + 1][..i] == table[..i];
      size := size + table[i];
    }
    assert table[..|table|] == table;
  }

  // ----- Streams of pages

  /** A page as its writer sees it; the granule position is a signed 64-bit integer. */
  datatype Page = Page(
    version: Byte, flags: Byte, granule: int, serialSequenceChecksum: seq<Byte>, segments: seq<seq<Byte>>)

  predicate WellFormed(page: Page) {
    && IsInt64(page.granule) && |page.serialSequenceChecksum| == 12
    && |page.segments| < 256 && Short(page.segments)
  }

  predicate Short(segments: seq<seq<Byte>>) {
    forall i :: 0 <= i < |segments| ==> |segments[i]| < 256
  }

  /** The segment table: how long each segment is. */
  function Lengths(segments: seq<seq<Byte>>): (r: seq<Byte>)
    requires Short(segments)
    ensures |r| == |segments|
  {
    seq(|segments|, i requires 0 <= i < |segments| => |segments[i]|)
  }

  /** The page's body: the segments one after the other. */
  function Concat(segments: seq<seq<Byte>>): seq<Byte> {
    if segments == [] then [] else Concat(segments[..|segments| - 1]) + segments[|segments| - 1]
  }

  /** The lengths in the table add up to the body. */
  lemma {:induction false} BodyIsSum(segments: seq<seq<Byte>>)
    requires Short(segments)
    ensures |Concat(segments)| == Sum(Lengths(segments))
  {
    if segments != [] {
      var front := segments[..|segments| - 1];
      BodyIsSum(front);
      assert Lengths(segments)[..|front|] == Lengths(front);
    }
  }

  function LittleEndian(x: nat, n: nat): (r: seq<Byte>)
    ensures |r| == n
  {
    if n == 0 then [] else [x % 256] + LittleEndian(x / 256, n - 1)
  }

  function Header(page: Page): (r: seq<Byte>)
    requires WellFormed(page)
    ensures |r| == HEADER
  {
    // "OggS"
    [0x4F, 0x67, 0x67, 0x53] + [page.version, page.flags] + LittleEndian(page.granule % TWO_64, 8)
    + page.serialSequenceChecksum + [|page.segments|]
  }

  function Encode(page: Page): seq<Byte>
    requires WellFormed(page)
  {
    Header(page) + Lengths(page.segments) + Concat(page.segments)
  }

  /** A page and the bytes before it that belong to no page. */
  datatype Chunk = Chunk(gap: seq<Byte>, page: Page)

  predicate NoCapture(data: seq<Byte>) {
    forall i: nat :: i <= |data| ==> !CaptureAt(data, i)
  }

  predicate ChunkOk(chunk: Chunk) {
    NoCapture(chunk.gap) && WellFormed(chunk.page)
  }

  function Stream(chunks: seq<Chunk>, tail: seq<Byte>): seq<Byte>
    requires forall c :: c in chunks ==> ChunkOk(c)
  {
    if chunks == [] then tail
    else
      assert ChunkOk(chunks[0]);
      chunks[0].gap + (Encode(chunks[0].page) + Stream(chunks[1..], tail))
  }

  /** The greatest of `total` and the granule positions. */
  function Greatest(chunks: seq<Chunk>, total: int): int {
    if chunks == [] then total else Greatest(chunks[1..], Max(total, chunks[0].page.granule))
  }

  // ----- Decoding granule positions

  function Pow256(n: nat): nat {
    if n == 0 then 1 else 256 * Pow256(n - 1)
  }

  lemma {:induction false} LittleEndianReadsBack(x: nat, n: nat)
    requires x < Pow256(n)
    ensures FromLittleEndian(LittleEndian(x, n)) == x
  {
    if n > 0 {
      LittleEndianReadsBack(x / 256, n - 1);
      assert LittleEndian(x, n)[1..] == LittleEndian(x / 256, n - 1);
    }
  }

  /** Every int64 survives its eight bytes, negative ones too. */
  lemma GranuleReadsBack(page: Page)
    requires WellFormed(page)
    ensures Granule(Header(page)) == page.granule
  {
    var x := page.granule % TWO_64;
    assert Header(page)[6..14] == LittleEndian(x, 8);
    assert Pow256(8) == TWO_64 by {
      assert Pow256(4) == 0x1_0000_0000;
    }
    LittleEndianReadsBack(x, 8);
    assert x == if page.granule >= 0 then page.granule else page.granule + TWO_64;
  }

  // ----- What the scan finds

  /** What follows the header at `p` is the same behind other bytes. */
  lemma PageShifted(front: seq<Byte>, data: seq<Byte>, p: nat)
    requires p + HEADER <= |data|
    ensures var all, q := front + data, |front| + p;
      && (CaptureAt(all, q) <==> CaptureAt(data, p))
      && all[q..q + HEADER] == data[p..p + HEADER] && all[q + 26] == data[p + 26]
      && (p + HEADER + data[p + 26] <= |data| ==>
            all[q + HEADER..q + HEADER + data[p + 26]] == data[p + HEADER..p + HEADER + data[p + 26]])
  {
    var all, q := front + data, |front| + p;
    assert all[q..q + 4] == data[p..p + 4];
  }

  /** Where the scan goes on after a complete page at `p`. */
  function PageEnd(data: seq<Byte>, p: nat): nat
    requires p + HEADER <= |data| && p + HEADER + data[p + 26] <= |data|
  {
    var table := p + HEADER + data[p + 26];
    table + Sum(data[p + HEADER..table])
  }

  lemma ScanComplete(data: seq<Byte>, p: nat, total: int)
    requires p + HEADER <= |data| && CaptureAt(data, p) && p + HEADER + data[p + 26] <= |data|
    ensures Scan(data, p, total) == Scan(data, PageEnd(data, p), Max(total, Granule(data[p..p + HEADER])))
  {
  }

  lemma ScanTruncated(data: seq<Byte>, p: nat, total: int)
    requires p + HEADER <= |data| && CaptureAt(data, p) && p + HEADER + data[p + 26] > |data|
    ensures Scan(data, p, total) == Max(total, Granule(data[p..p + HEADER]))
  {
  }

  lemma ScanMoves(data: seq<Byte>, p: nat, total: int)
    requires !CaptureAt(data, p)
    ensures Scan(data, p, total) == if p + HEADER > |data| then total else Scan(data, p + 1, total)
  {
  }

  lemma MoveShifted(front: seq<Byte>, data: seq<Byte>, p: nat, total: int)
    requires p + HEADER <= |data| && !CaptureAt(data, p)
    ensures Scan(data, p, total) == Scan(data, p + 1, total)
    ensures Scan(front + data, |front| + p, total) == Scan(front + data, |front| + p + 1, total)
  {
    PageShifted(front, data, p);
    ScanMoves(data, p, total);
    ScanMoves(front + data, |front| + p, total);
  }

  lemma PageEndShifted(front: seq<Byte>, data: seq<Byte>, p: nat)
    requires p + HEADER <= |data| && p + HEADER + data[p + 26] <= |data|
    ensures var all, q := front + data, |front| + p;
      && all[q + 26] == data[p + 26] && all[q..q + HEADER] == data[p..p + HEADER]
      && PageEnd(all, q) == |front| + PageEnd(data, p)
  {
    PageShifted(front, data, p);
  }

  lemma CompleteShifted(front: seq<Byte>, data: seq<Byte>, p: nat, total: int)
    requires p + HEADER <= |data| && CaptureAt(data, p) && p + HEADER + data[p + 26] <= |data|
    ensures Scan(front + data, |front| + p, total)
      == Scan(front + data, |front| + PageEnd(data, p), Max(total, Granule(data[p..p + HEADER])))
  {
    PageShifted(front, data, p);
    PageEndShifted(front, data, p);
    ScanComplete(front + data, |front| + p, total);
  }

  lemma TruncatedShifted(front: seq<Byte>, data: seq<Byte>, p: nat, total: int)
    requires p + HEADER <= |data| && CaptureAt(data, p) && p + HEADER + data[p + 26] > |data|
    ensures Scan(front + data, |front| + p, total) == Scan(data, p, total)
  {
    PageShifted(front, data, p);
    ScanTruncated(data, p, total);
    ScanTruncated(front + data, |front| + p, total);
  }

  lemma EndShifted(front: seq<Byte>, data: seq<Byte>, p: nat, total: int)
    requires p + HEADER > |data|
    ensures Scan(front + data, |front| + p, total) == Scan(data, p, total)
  {
  }

  function Scanning(): (seq<Byte>, nat, int) -> int {
    (data: seq<Byte>, p: nat, total: int) => Scan(data, p, total)
  }

  /** One step is the same with other bytes in front. */
  predicate StepShifts(front: seq<Byte>, data: seq<Byte>, p: nat, total: int, scan: (seq<Byte>, nat, int) -> int) {
    if p + HEADER > |data| || (CaptureAt(data, p) && p + HEADER + data[p + 26] > |data|) then
      scan(front + data, |front| + p, total) == scan(data, p, total)
    else
      var next := if CaptureAt(data, p) then PageEnd(data, p) else p + 1;
      var found := if CaptureAt(data, p) then Max(total, Granule(data[p..p + HEADER])) else total;
      && scan(data, p, total) == scan(data, next, found)
      && scan(front + data, |front| + p, total) == scan(front + data, |front| + next, found)
  }

  lemma ScanStepShifts(front: seq<Byte>, data: seq<Byte>, p: nat, total: int)
    ensures StepShifts(front, data, p, total, Scanning())
  {
    if p + HEADER > |data| {
      EndShifted(front, data, p, total);
    } else if !CaptureAt(data, p) {
      MoveShifted(front, data, p, total);
    } else if p + HEADER + data[p + 26] <= |data| {
      ScanComplete(data, p, total);
      CompleteShifted(front, data, p, total);
    } else {
      TruncatedShifted(front, data, p, total);
    }
  }

  lemma {:induction false} AllShifts(front: seq<Byte>, data: seq<Byte>, p: nat, total: int, scan: (seq<Byte>, nat, int) -> int)
    requires forall q: nat, t: int :: StepShifts(front, data, q, t, scan)
    ensures scan(front + data, |front| + p, total) == scan(data, p, total)
    decreases if p <= |data| then |data| - p else 0
  {
    assert StepShifts(front, data, p, total, scan);
    if p + HEADER <= |data| {
      if !CaptureAt(data, p) {
        AllShifts(front, data, p + 1, total, scan);
      } else if p + HEADER + data[p + 26] <= |data| {
        AllShifts(front, data, PageEnd(data, p), Max(total, Granule(data[p..p + HEADER])), scan);
      }
    }
  }

  /** Bytes in front do not matter to a scan that starts after them. */
  lemma ScanShifted(front: seq<Byte>, data: seq<Byte>, p: nat, total: int)
    ensures Scan(front + data, |front| + p, total) == Scan(data, p, total)
  {
    forall q: nat, t: int ensures StepShifts(front, data, q, t, Scanning()) {
      ScanStepShifts(front, data, q, t);
    }
    AllShifts(front, data, p, total, Scanning());
  }

  /** Where no page starts the scan moves on byte by byte. */
  lemma {:induction false} ScanSkips(data: seq<Byte>, p: nat, q: nat, total: int)
    requires p <= q <= |data| && forall i :: p <= i < q ==> !CaptureAt(data, i)
    ensures Scan(data, p, total) == Scan(data, q, total)
    decreases q - p
  {
    if p < q && p + HEADER <= |data| {
      ScanSkips(data, p + 1, q, total);
    }
  }

  /** Bytes in which no page starts do not change the answer. */
  lemma GarbageIsSkipped(gap: seq<Byte>, data: seq<Byte>, total: int)
    requires forall i: nat :: i < |gap| ==> !CaptureAt(gap + data, i)
    ensures Scan(gap + data, 0, total) == Scan(data, 0, total)
  {
    ScanSkips(gap + data, 0, |gap|, total);
    ScanShifted(gap, data, 0, total);
  }

  /** The capture pattern does not overlap itself: it cannot start in a gap that does not hold it
      and end in the page that follows. */
  lemma NoStraddling(gap: seq<Byte>, data: seq<Byte>, i: nat)
    requires NoCapture(gap) && CaptureAt(data, 0) && i < |gap|
    ensures !CaptureAt(gap + data, i)
  {
    var all := gap + data;
    assert !CaptureAt(gap, i);
    assert data[0] == data[0..4][0] == 0x4F;
    if i + 4 <= |gap| {
      assert all[i..i + 4] == gap[i..i + 4];
    } else if i + 4 <= |all| {
      assert all[i..i + 4][|gap| - i] == all[|gap|] == 0x4F;
      assert CAPTURE[|gap| - i] != 0x4F;
    }
  }

  /** One page: its granule position is taken, and the scan goes on behind its body. */
  lemma PageIsScanned(page: Page, rest: seq<Byte>, total: int)
    requires WellFormed(page)
    ensures CaptureAt(Encode(page) + rest, 0)
    ensures Scan(Encode(page) + rest, 0, total) == Scan(rest, 0, Max(total, page.granule))
  {
    var bytes := Encode(page);
    var data := bytes + rest;
    var n := |page.segments|;
    assert data[0..HEADER] == Header(page);
    assert data[0..4] == Header(page)[0..4] == CAPTURE;
    assert data[26] == Header(page)[26] == n;
    assert data[HEADER..HEADER + n] == Lengths(page.segments);
    BodyIsSum(page.segments);
    GranuleReadsBack(page);
    ScanShifted(bytes, rest, 0, Max(total, page.granule));
  }

  lemma NothingInTail(tail: seq<Byte>, total: int)
    requires NoCapture(tail)
    ensures Scan(tail, 0, total) == total
  {
    ScanSkips(tail, 0, |tail|, total);
  }

  /** Pages with garbage before, between and after them: the scan returns the greatest granule
      position. */
  lemma {:induction false} StreamIsScanned(chunks: seq<Chunk>, tail: seq<Byte>, total: int)
    requires (forall c :: c in chunks ==> ChunkOk(c)) && NoCapture(tail)
    ensures Scan(Stream(chunks, tail), 0, total) == Greatest(chunks, total)
  {
    if chunks == [] {
      NothingInTail(tail, total);
    } else {
      var gap, page, rest := chunks[0].gap, chunks[0].page, Stream(chunks[1..], tail);
      assert ChunkOk(chunks[0]);
      PageIsScanned(page, rest, total);
      forall i: nat | i < |gap| ensures !CaptureAt(gap + (Encode(page) + rest), i) {
        NoStraddling(gap, Encode(page) + rest, i);
      }
      GarbageIsSkipped(gap, Encode(page) + rest, total);
      StreamIsScanned(chunks[1..], tail, Max(total, page.granule));
    }
  }

  /** The greatest is one of them, and none is greater. */
  lemma {:induction false} GreatestMeans(chunks: seq<Chunk>, total: int)
    ensures var g := Greatest(chunks, total);
            && g >= total && (forall c :: c in chunks ==> c.page.granule <= g)
            && (g == total || exists c :: c in chunks && c.page.granule == g)
  {
    if chunks != [] {
      GreatestMeans(chunks[1..], Max(total, chunks[0].page.granule));
    }
  }

  /** On any bytes at all the answer is zero or a positive granule position behind a capture
      pattern. */
  lemma {:induction false} ScanFindsAHeader(data: seq<Byte>, p: nat, total: int)
    ensures var found := Scan(data, p, total);
            || found == total
            || (found > total && exists q: nat ::
                  p <= q && q + HEADER <= |data| && CaptureAt(data, q) && Granule(data[q..q + HEADER]) == found)
    decreases if p <= |data| then |data| - p else 0
  {
    if p + HEADER <= |data| {
      if !CaptureAt(data, p) {
        ScanFindsAHeader(data, p + 1, total);
      } else if p + HEADER + data[p + 26] <= |data| {
        ScanComplete(data, p, total);
        ScanFindsAHeader(data, PageEnd(data, p), Max(total, Granule(data[p..p + HEADER])));
      } else {
        ScanTruncated(data, p, total);
      }
    }
  }
}
