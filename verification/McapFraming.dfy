/**
 The record framing of concatenated MCAP files, as the analyser reads it.
 */
module McapFraming {

  type byte = x: int | 0 <= x < 256

  const MAGIC: seq<byte> := [0x89, 0x4D, 0x43, 0x41, 0x50, 0x30, 0x0D, 0x0A]
  const FOOTER: byte := 0x02
  const CHUNK: byte := 0x06

  predicate Known(op: byte) {
    0x01 <= op <= 0x0F
  }

  predicate AtMagic(data: seq<byte>, i: nat) {
    && i + 8 <= |data|
    && data[i] == 0x89 && data[i + 1] == 0x4D && data[i + 2] == 0x43 && data[i + 3] == 0x41
    && data[i + 4] == 0x50 && data[i + 5] == 0x30 && data[i + 6] == 0x0D && data[i + 7] == 0x0A
  }

  /** The unsigned number in the bytes from lo up to hi, the lowest first. */
  function Number(data: seq<byte>, lo: nat, hi: nat): nat
    requires lo <= hi <= |data|
    decreases hi - lo
  {
    if lo == hi then 0 else data[lo] + 256 * Number(data, lo + 1, hi)
  }

  /** What one turn of the loop finds: where the sub-file ends, an unreadable footer, or where the next record is. */
  datatype Found = End(next: nat, cutChunk: bool, closed: bool) | Unreadable | Record(op: byte, next: nat)

  /** A footer whose two offsets are not all there cannot be read. */
  function Look(data: seq<byte>, i: nat): (f: Found)
    requires i <= |data|
    ensures f.End? ==> i <= f.next <= |data| && (f.next == i ==> i == |data|) && (!f.closed ==> f.next == |data|)
    ensures f.Record? ==> i + 9 <= f.next <= |data|
  {
    if i == |data| then End(i, false, false)
    else if AtMagic(data, i) then End(i + 8, false, true)
    else if i + 9 > |data| || !Known(data[i]) then End(|data|, false, false)
    else
      var op, next := data[i], i + 9 + Number(data, i + 1, i + 9);
      if op == CHUNK && next > |data| then End(|data|, true, false)
      else if op == FOOTER && i + 25 > |data| then Unreadable
      else if next > |data| then End(|data|, false, false)
      else Record(op, next)
  }

  /** Where a sub-file ends, its records and chunks, and whether the closing magic was found. */
  datatype Result = Ok(next: nat, records: nat, chunks: nat, closed: bool) | Err

  function ChunksIn(op: byte): nat {
    if op == CHUNK then 1 else 0
  }

  /**
   The records from offset i on, added to those before.  The offset always moves, and never beyond
   the end; a chunk that is cut counts as a chunk, though not as a record.
   */
  function Scan(data: seq<byte>, i: nat, records: nat, chunks: nat): (r: Result)
    requires i <= |data|
    ensures r.Ok? ==>
              && i <= r.next <= |data| && (r.next == i ==> i == |data|)
              && (!r.closed ==> r.next == |data|)
    decreases |data| - i
  {
    match Look(data, i)
    case End(next, cut, closed) => Ok(next, records, if cut then chunks + 1 else chunks, closed)
    case Unreadable => Err
    case Record(op, next) => Scan(data, next, records + 1, chunks + ChunksIn(op))
  }

  datatype Report = Report(subfiles: nat, records: nat, chunks: nat) | Failed

  /** The sub-files from offset i on, up to where there is no leading magic, added to those before. */
  function Analyse(data: seq<byte>, i: nat, subfiles: nat, records: nat, chunks: nat): Report
    requires i <= |data|
    decreases |data| - i
  {
    if !AtMagic(data, i) then Report(subfiles, records, chunks)
    else
      match Scan(data, i + 8, 0, 0)
      case Err => Failed
      case Ok(next, more, moreChunks, _) => Analyse(data, next, subfiles + 1, records + more, chunks + moreChunks)
  }

  // ---- the analyser's loops ----

  /** struct.unpack_from('<Q'): eight bytes, the lowest first. */
  method Unpack(data: seq<byte>, offset: nat) returns (n: nat)
    requires offset + 8 <= |data|
    ensures n == Number(data, offset, offset + 8)
  {
    n := 0;
    var k := 8;
    while k > 0
      invariant 0 <= k <= 8 && n == Number(data, offset + k, offset + 8)
    {
      k := k - 1;
      n := data[offset + k] + 256 * n;
    }
  }

  /** The comparison of a slice with the magic. */
  method IsMagic(data: seq<byte>, i: nat) returns (found: bool)
    requires i + 8 <= |data|
    ensures found <==> AtMagic(data, i)
  {
    var bytes := data[i..i + 8];
    assert AtMagic(bytes, 0) <==> AtMagic(data, i);
    found := bytes == MAGIC;
  }

  /** One turn of parse_subfile's loop, at offset i. */
  method ParseRecord(data: seq<byte>, i: nat) returns (found: Found)
    requires i < |data|
    ensures found == Look(data, i)
  {
    if i + 8 <= |data| {
      var trailing := IsMagic(data, i);
      if trailing { return End(i + 8, false, true); }
    }
    if i + 9 > |data| { return End(|data|, false, false); }
    var op := data[i];
    if !Known(op) { return End(|data|, false, false); }
    var length := Unpack(data, i + 1);
    var end := i + 1 + 8 + length;
    if op == CHUNK {
      if end > |data| { return End(|data|, true, false); }
    } else if op == FOOTER {
      if i + 25 > |data| { return Unreadable; }
      var summaryStart := Unpack(data, i + 9);
      var summaryOffsetStart := Unpack(data, i + 17);
    }
    if end > |data| { return End(|data|, false, false); }
    found := Record(op, end);
  }

  /** parse_subfile, from `start` on. */
  method ParseSubfile(data: seq<byte>, start: nat) returns (r: Result)
    requires start <= |data|
    ensures r == Scan(data, start, 0, 0)
  {
    var i, records, chunks := start, 0, 0;
    while i < |data|
      invariant start <= i <= |data| && 0 <= records && 0 <= chunks
      invariant Scan(data, start, 0, 0) == Scan(data, i, records, chunks)
    {
      var found := ParseRecord(data, i);
      match found
      case End(next, cut, closed) =>
        if cut { chunks := chunks + 1; }
        return Ok(next, records, chunks, closed);
      case Unreadable => return Err;
      case Record(op, next) =>
        if op == CHUNK { chunks := chunks + 1; }
        records := records + 1;
        i := next;
    }
    r := Ok(i, records, chunks, false);
  }

  /** parse_mcap, once the file has been read. */
  method ParseMcap(data: seq<byte>) returns (r: Report)
    ensures r == Analyse(data, 0, 0, 0, 0)
  {
    var i, subfiles, records, chunks := 0, 0, 0, 0;
    while i < |data|
      invariant 0 <= i <= |data| && 0 <= subfiles && 0 <= records && 0 <= chunks
      invariant Analyse(data, 0, 0, 0, 0) == Analyse(data, i, subfiles, records, chunks)
      decreases |data| - i
    {
      if i + 8 > |data| { break; }
      var leading := IsMagic(data, i);
      if !leading { break; }
      subfiles := subfiles + 1;
      i := i + 8;
      var scanned := ParseSubfile(data, i);
      match scanned
      case Err => return Failed;
      case Ok(next, more, moreChunks, _) =>
        i := next;
        records := records + more;
        chunks := chunks + moreChunks;
    }
    r := Report(subfiles, records, chunks);
  }
}
