/**
 The writer's side of the framing (MCAP format specification, "File Structure" and "Records"), and
 what the analyser makes of whole and of cut files.
 */
module McapRoundTrip {
  import opened McapFraming

  datatype Rec = Rec(op: byte, payload: seq<byte>)

  function Pow256(n: nat): nat {
    if n == 0 then 1 else 256 * Pow256(n - 1)
  }

  /** What eight bytes can hold. */
  const LENGTH_LIMIT: nat := 0x1_0000_0000_0000_0000

  lemma EightBytes()
    ensures Pow256(8) == LENGTH_LIMIT
  {
  }

  /** A number in n bytes, the lowest first. */
  function Bytes(v: nat, n: nat): (s: seq<byte>)
    ensures |s| == n
  {
    if n == 0 then [] else [v % 256] + Bytes(v / 256, n - 1)
  }

  /** A record of one of the format's 15 kinds, with a length that fits; a footer holds at least its two offsets. */
  predicate ValidRecord(r: Rec) {
    0x01 <= r.op <= 0x0F && |r.payload| < LENGTH_LIMIT && (r.op == 0x02 ==> |r.payload| >= 16)
  }

  predicate Valid(rs: seq<Rec>) {
    rs == [] || (ValidRecord(rs[0]) && Valid(rs[1..]))
  }

  predicate ValidFile(subfiles: seq<seq<Rec>>) {
    subfiles == [] || (Valid(subfiles[0]) && ValidFile(subfiles[1..]))
  }

  function Size(r: Rec): nat {
    9 + |r.payload|
  }

  function SizeAll(rs: seq<Rec>): nat {
    if rs == [] then 0 else Size(rs[0]) + SizeAll(rs[1..])
  }

  function Encode(r: Rec): (s: seq<byte>)
    ensures |s| == Size(r)
  {
    [r.op] + Bytes(|r.payload|, 8) + r.payload
  }

  /** Records and the closing magic: a sub-file behind its leading magic. */
  function Body(rs: seq<Rec>): (s: seq<byte>)
    ensures |s| == SizeAll(rs) + 8
  {
    if rs == [] then MAGIC else Encode(rs[0]) + Body(rs[1..])
  }

  function EncodeFile(subfiles: seq<seq<Rec>>): seq<byte> {
    if subfiles == [] then [] else MAGIC + Body(subfiles[0]) + EncodeFile(subfiles[1..])
  }

  function Chunks(rs: seq<Rec>): nat {
    if rs == [] then 0 else (if rs[0].op == 0x06 then 1 else 0) + Chunks(rs[1..])
  }

  function Records(subfiles: seq<seq<Rec>>): nat {
    if subfiles == [] then 0 else |subfiles[0]| + Records(subfiles[1..])
  }

  function AllChunks(subfiles: seq<seq<Rec>>): nat {
    if subfiles == [] then 0 else Chunks(subfiles[0]) + AllChunks(subfiles[1..])
  }

  // ---- bytes at an offset ----

  predicate SameByte(data: seq<byte>, i: nat, part: seq<byte>, j: nat) {
    j < |part| && i + j < |data| && part[j] == data[i + j]
  }

  /** The first k bytes of `part` stand at offset i. */
  ghost predicate HasFirst(data: seq<byte>, i: nat, part: seq<byte>, k: nat) {
    k <= |part| && i + k <= |data| && forall j: nat :: j < k ==> SameByte(data, i, part, j)
  }

  lemma HasSelf(data: seq<byte>)
    ensures HasFirst(data, 0, data, |data|)
  {
    forall j: nat | j < |data| ensures SameByte(data, 0, data, j) {}
  }

  lemma HasParts(data: seq<byte>, i: nat, a: seq<byte>, b: seq<byte>, k: nat)
    requires HasFirst(data, i, a + b, k)
    ensures HasFirst(data, i, a, if k < |a| then k else |a|)
    ensures |a| <= k ==> HasFirst(data, i + |a|, b, k - |a|)
  {
    forall j: nat | j < k && j < |a| ensures SameByte(data, i, a, j) { assert SameByte(data, i, a + b, j); }
    if |a| <= k {
      var at, left := i + |a|, k - |a|;
      forall j: nat | j < left ensures SameByte(data, at, b, j) { assert SameByte(data, i, a + b, |a| + j); }
    }
  }

  lemma MagicAt(data: seq<byte>, i: nat)
    requires HasFirst(data, i, MAGIC, 8)
    ensures AtMagic(data, i)
  {
    assert SameByte(data, i, MAGIC, 0) && SameByte(data, i, MAGIC, 1) && SameByte(data, i, MAGIC, 2);
    assert SameByte(data, i, MAGIC, 3) && SameByte(data, i, MAGIC, 4) && SameByte(data, i, MAGIC, 5);
    assert SameByte(data, i, MAGIC, 6) && SameByte(data, i, MAGIC, 7);
  }

  lemma {:induction false} NumberOfBytes(data: seq<byte>, lo: nat, v: nat, n: nat)
    requires HasFirst(data, lo, Bytes(v, n), n) && v < Pow256(n)
    ensures Number(data, lo, lo + n) == v
    decreases n
  {
    if n > 0 {
      HasParts(data, lo, [v % 256], Bytes(v / 256, n - 1), n);
      assert SameByte(data, lo, [v % 256], 0);
      NumberOfBytes(data, lo + 1, v / 256, n - 1);
    }
  }

  /** The first k bytes of a record give its kind, and from its header's end on its length. */
  lemma HeaderAt(data: seq<byte>, i: nat, r: Rec, k: nat)
    requires ValidRecord(r) && 0 < k && HasFirst(data, i, Encode(r), k)
    ensures data[i] == r.op
    ensures 9 <= k ==> Number(data, i + 1, i + 9) == |r.payload|
  {
    var length := Bytes(|r.payload|, 8);
    HasParts(data, i, [r.op] + length, r.payload, k);
    HasParts(data, i, [r.op], length, if k < 9 then k else 9);
    assert SameByte(data, i, [r.op], 0);
    EightBytes();
    if 9 <= k { NumberOfBytes(data, i + 1, |r.payload|, 8); }
  }

  lemma LookAtWhole(data: seq<byte>, i: nat, r: Rec)
    requires ValidRecord(r) && HasFirst(data, i, Encode(r), Size(r))
    ensures Look(data, i) == Record(r.op, i + Size(r))
  {
    HeaderAt(data, i, r, Size(r));
  }

  /** A record of which only k bytes are left. */
  lemma LookAtCut(data: seq<byte>, i: nat, r: Rec, k: nat)
    requires ValidRecord(r) && i + k == |data| && k < Size(r) && HasFirst(data, i, Encode(r), k)
    ensures Look(data, i) == if r.op == FOOTER && 9 <= k < 25 then Unreadable
                             else End(|data|, r.op == CHUNK && 9 <= k, false)
  {
    if k > 0 { HeaderAt(data, i, r, k); }
  }

  // ---- one sub-file ----

  /** How many of the records lie whole within the first k bytes. */
  function Whole(rs: seq<Rec>, k: nat): (w: nat)
    ensures w <= |rs|
  {
    if rs == [] || k < Size(rs[0]) then 0 else 1 + Whole(rs[1..], k - Size(rs[0]))
  }

  /** The chunks among them, and one more if a chunk is cut behind its header. */
  function ChunksSeen(rs: seq<Rec>, k: nat): nat {
    if rs == [] then 0
    else if k < Size(rs[0]) then if rs[0].op == 0x06 && 9 <= k then 1 else 0
    else ChunksIn(rs[0].op) + ChunksSeen(rs[1..], k - Size(rs[0]))
  }

  /** The cut is in a footer, behind its header and before the end of its two offsets. */
  predicate CutInFooter(rs: seq<Rec>, k: nat) {
    rs != [] && (
      if k < Size(rs[0]) then rs[0].op == 0x02 && 9 <= k < 25 else CutInFooter(rs[1..], k - Size(rs[0])))
  }

  /** The three of them, by position: record w is the one that is cut. */
  lemma {:induction false} CutMeans(rs: seq<Rec>, k: nat)
    ensures var w := Whole(rs, k);
            && SizeAll(rs[..w]) <= k
            && (w < |rs| ==> k < SizeAll(rs[..w]) + Size(rs[w]))
            && (CutInFooter(rs, k) <==> w < |rs| && rs[w].op == 0x02 && 9 <= k - SizeAll(rs[..w]) < 25)
            && ChunksSeen(rs, k) == Chunks(rs[..w]) +
                 if w < |rs| && rs[w].op == 0x06 && 9 <= k - SizeAll(rs[..w]) then 1 else 0
    decreases |rs|
  {
    var w := Whole(rs, k);
    if w > 0 {
      CutMeans(rs[1..], k - Size(rs[0]));
      assert rs[..w][0] == rs[0] && rs[..w][1..] == rs[1..][..w - 1];
      if w < |rs| { assert rs[w] == rs[1..][w - 1]; }
    }
  }

  /** What the analyser finds at each step through the first k bytes of a sub-file; all is there if k is its size. */
  predicate Laid(data: seq<byte>, i: nat, rs: seq<Rec>, k: nat)
    requires i <= |data|
    decreases |rs|
  {
    if rs == [] then
      if k >= 8 then AtMagic(data, i) else Look(data, i) == End(|data|, false, false)
    else if k < Size(rs[0]) then
      Look(data, i) == (if rs[0].op == 0x02 && 9 <= k < 25 then Unreadable
                        else End(|data|, rs[0].op == 0x06 && 9 <= k, false))
    else
      && Look(data, i) == Record(rs[0].op, i + Size(rs[0]))
      && Laid(data, i + Size(rs[0]), rs[1..], k - Size(rs[0]))
  }

  lemma MagicIsLaid(data: seq<byte>, i: nat, k: nat)
    requires HasFirst(data, i, MAGIC, k) && (k == 8 || i + k == |data|)
    ensures Laid(data, i, [], k)
  {
    if k == 8 { MagicAt(data, i); }
  }

  /** A record and what follows it from offset `next` on, each at its own place. */
  lemma RecordHasParts(
    data: seq<byte>, i: nat, next: nat, all: seq<byte>, r: Rec, more: seq<byte>, k: nat)
    requires HasFirst(data, i, all, k) && all == Encode(r) + more && next == i + Size(r)
    ensures HasFirst(data, i, Encode(r), if k < Size(r) then k else Size(r))
    ensures Size(r) <= k ==> HasFirst(data, next, more, k - Size(r))
  {
    HasParts(data, i, Encode(r), more, k);
  }

  lemma LaidCons(data: seq<byte>, i: nat, rs: seq<Rec>, k: nat, next: nat, left: nat)
    requires rs != [] && next == i + Size(rs[0]) <= |data| && k == Size(rs[0]) + left
    requires Look(data, i) == Record(rs[0].op, next) && Laid(data, next, rs[1..], left)
    ensures Laid(data, i, rs, k)
  {
  }

  lemma {:induction false} BytesAreLaid(data: seq<byte>, i: nat, rs: seq<Rec>, k: nat)
    requires Valid(rs) && HasFirst(data, i, Body(rs), k) && (k == SizeAll(rs) + 8 || i + k == |data|)
    ensures Laid(data, i, rs, k)
    decreases |rs|
  {
    if rs == [] {
      MagicIsLaid(data, i, k);
    } else {
      var r, rest := rs[0], rs[1..];
      var next := i + Size(r);
      RecordHasParts(data, i, next, Body(rs), r, Body(rest), k);
      if k < Size(r) {
        LookAtCut(data, i, r, k);
      } else {
        var left := k - Size(r);
        LookAtWhole(data, i, r);
        BytesAreLaid(data, next, rest, left);
        LaidCons(data, i, rs, k, next, left);
      }
    }
  }

  lemma {:induction false} ScanLaid(data: seq<byte>, i: nat, rs: seq<Rec>, k: nat, records: nat, chunks: nat)
    requires i + k <= |data| && k <= SizeAll(rs) + 8 && (k == SizeAll(rs) + 8 || i + k == |data|)
    requires Laid(data, i, rs, k)
    ensures Scan(data, i, records, chunks) ==
              if CutInFooter(rs, k) then Err
              else Ok(i + k, records + Whole(rs, k), chunks + ChunksSeen(rs, k), k == SizeAll(rs) + 8)
    decreases |rs|
  {
    if rs != [] && Size(rs[0]) <= k {
      ScanLaid(data, i + Size(rs[0]), rs[1..], k - Size(rs[0]), records + 1, chunks + ChunksIn(rs[0].op));
    }
  }

  lemma {:induction false} AllSeen(rs: seq<Rec>)
    ensures var k := SizeAll(rs) + 8;
            Whole(rs, k) == |rs| && ChunksSeen(rs, k) == Chunks(rs) && !CutInFooter(rs, k)
  {
    if rs != [] { AllSeen(rs[1..]); }
  }

  // ---- whole files ----

  /** A leading magic, and k bytes of a sub-file behind it. */
  lemma SubfileAt(data: seq<byte>, i: nat, rs: seq<Rec>, k: nat)
    requires Valid(rs) && HasFirst(data, i, MAGIC + Body(rs), 8 + k)
    requires k == SizeAll(rs) + 8 || i + 8 + k == |data|
    ensures AtMagic(data, i)
    ensures Scan(data, i + 8, 0, 0) ==
              if CutInFooter(rs, k) then Err else Ok(i + 8 + k, Whole(rs, k), ChunksSeen(rs, k), k == SizeAll(rs) + 8)
  {
    HasParts(data, i, MAGIC, Body(rs), 8 + k);
    MagicAt(data, i);
    BytesAreLaid(data, i + 8, rs, k);
    ScanLaid(data, i + 8, rs, k, 0, 0);
  }

  function SizeFile(subfiles: seq<seq<Rec>>): nat {
    if subfiles == [] then 0 else 16 + SizeAll(subfiles[0]) + SizeFile(subfiles[1..])
  }

  /** At offset i the analyser finds a whole sub-file. */
  predicate SubfileLaid(data: seq<byte>, i: nat, rs: seq<Rec>) {
    && i + 16 + SizeAll(rs) <= |data| && AtMagic(data, i)
    && Scan(data, i + 8, 0, 0) == Ok(i + 16 + SizeAll(rs), |rs|, Chunks(rs), true)
  }

  lemma WholeSubfileAt(data: seq<byte>, i: nat, rs: seq<Rec>)
    requires Valid(rs) && HasFirst(data, i, MAGIC + Body(rs), 16 + SizeAll(rs))
    ensures SubfileLaid(data, i, rs)
  {
    SubfileAt(data, i, rs, SizeAll(rs) + 8);
    AllSeen(rs);
  }

  /** What the analyser finds at each step through whole sub-files. */
  predicate FileLaid(data: seq<byte>, i: nat, subfiles: seq<seq<Rec>>)
    requires i <= |data|
    decreases |subfiles|
  {
    subfiles == [] || (
      && SubfileLaid(data, i, subfiles[0])
      && FileLaid(data, i + 16 + SizeAll(subfiles[0]), subfiles[1..]))
  }

  lemma EncodeFirst(subfiles: seq<seq<Rec>>)
    requires subfiles != []
    ensures EncodeFile(subfiles) == MAGIC + Body(subfiles[0]) + EncodeFile(subfiles[1..])
    ensures SizeFile(subfiles) == 16 + SizeAll(subfiles[0]) + SizeFile(subfiles[1..])
  {
  }

  /** A sub-file and what follows it from offset `next` on, each at its own place. */
  lemma SubfileHasParts(
    data: seq<byte>, i: nat, next: nat, all: seq<byte>, size: nat, rs: seq<Rec>, more: seq<byte>, left: nat)
    requires HasFirst(data, i, all, size) && all == MAGIC + Body(rs) + more
    requires next == i + 16 + SizeAll(rs) && size == 16 + SizeAll(rs) + left
    ensures HasFirst(data, i, MAGIC + Body(rs), 16 + SizeAll(rs)) && HasFirst(data, next, more, left)
  {
    HasParts(data, i, MAGIC + Body(rs), more, size);
  }

  lemma FileLaidCons(data: seq<byte>, i: nat, subfiles: seq<seq<Rec>>, next: nat)
    requires subfiles != [] && SubfileLaid(data, i, subfiles[0])
    requires next == i + 16 + SizeAll(subfiles[0]) && FileLaid(data, next, subfiles[1..])
    ensures FileLaid(data, i, subfiles)
  {
  }

  lemma {:induction false} FileIsLaid(data: seq<byte>, i: nat, subfiles: seq<seq<Rec>>)
    requires ValidFile(subfiles) && HasFirst(data, i, EncodeFile(subfiles), SizeFile(subfiles))
    ensures FileLaid(data, i, subfiles)
    decreases |subfiles|
  {
    if subfiles != [] {
      var rs, rest := subfiles[0], subfiles[1..];
      var next := i + 16 + SizeAll(rs);
      EncodeFirst(subfiles);
      SubfileHasParts(data, i, next, EncodeFile(subfiles), SizeFile(subfiles), rs, EncodeFile(rest), SizeFile(rest));
      WholeSubfileAt(data, i, rs);
      FileIsLaid(data, next, rest);
      FileLaidCons(data, i, subfiles, next);
    }
  }

  lemma AnalyseOne(data: seq<byte>, i: nat, rs: seq<Rec>, next: nat, n: nat, records: nat, chunks: nat)
    requires SubfileLaid(data, i, rs) && next == i + 16 + SizeAll(rs)
    ensures Analyse(data, i, n, records, chunks) == Analyse(data, next, n + 1, records + |rs|, chunks + Chunks(rs))
  {
  }

  lemma {:induction false} AnalyseLaid(
    data: seq<byte>, i: nat, subfiles: seq<seq<Rec>>, n: nat, records: nat, chunks: nat)
    requires i + SizeFile(subfiles) <= |data| && FileLaid(data, i, subfiles)
    ensures Analyse(data, i, n, records, chunks)
         == Analyse(data, i + SizeFile(subfiles), n + |subfiles|, records + Records(subfiles),
                    chunks + AllChunks(subfiles))
    decreases |subfiles|
  {
    if subfiles != [] {
      var rs, next := subfiles[0], i + 16 + SizeAll(subfiles[0]);
      AnalyseOne(data, i, rs, next, n, records, chunks);
      AnalyseLaid(data, next, subfiles[1..], n + 1, records + |rs|, chunks + Chunks(rs));
    }
  }

  lemma {:induction false} FileSize(subfiles: seq<seq<Rec>>)
    ensures |EncodeFile(subfiles)| == SizeFile(subfiles)
  {
    if subfiles != [] { FileSize(subfiles[1..]); }
  }

  /** The analysis of the sub-files at offset i comes to their end, having counted them. */
  lemma AnalyseAll(data: seq<byte>, i: nat, subfiles: seq<seq<Rec>>, n: nat, records: nat, chunks: nat)
    requires ValidFile(subfiles) && i + SizeFile(subfiles) <= |data|
    requires HasFirst(data, i, EncodeFile(subfiles), SizeFile(subfiles))
    ensures Analyse(data, i, n, records, chunks)
         == Analyse(data, i + SizeFile(subfiles), n + |subfiles|, records + Records(subfiles),
                    chunks + AllChunks(subfiles))
  {
    FileIsLaid(data, i, subfiles);
    AnalyseLaid(data, i, subfiles, n, records, chunks);
  }

  /** Analysing a concatenation of sub-files recovers their number and that of their records and chunks. */
  lemma {:induction false} CountsAreRecovered(subfiles: seq<seq<Rec>>)
    requires ValidFile(subfiles)
    ensures Analyse(EncodeFile(subfiles), 0, 0, 0, 0)
         == Report(|subfiles|, Records(subfiles), AllChunks(subfiles))
  {
    var data := EncodeFile(subfiles);
    FileSize(subfiles);
    HasSelf(data);
    AnalyseAll(data, 0, subfiles, 0, 0, 0);
    AnalyseEnd(data, |subfiles|, Records(subfiles), AllChunks(subfiles));
  }

  lemma AnalyseEnd(data: seq<byte>, n: nat, records: nat, chunks: nat)
    ensures Analyse(data, |data|, n, records, chunks) == Report(n, records, chunks)
  {
  }

  lemma AnalyseCut(data: seq<byte>, i: nat, rs: seq<Rec>, k: nat, n: nat, records: nat, chunks: nat)
    requires Valid(rs) && i + 8 + k == |data| && HasFirst(data, i, MAGIC + Body(rs), 8 + k)
    ensures Analyse(data, i, n, records, chunks) ==
              if CutInFooter(rs, k) then Failed
              else Report(n + 1, records + Whole(rs, k), chunks + ChunksSeen(rs, k))
  {
    SubfileAt(data, i, rs, k);
  }

  /** The counts of whole sub-files and of one cut k bytes behind its leading magic. */
  function CutReport(subfiles: seq<seq<Rec>>, last: seq<Rec>, k: nat): Report {
    if CutInFooter(last, k) then Failed
    else Report(|subfiles| + 1, Records(subfiles) + Whole(last, k), AllChunks(subfiles) + ChunksSeen(last, k))
  }

  /**
   A file cut anywhere behind its last leading magic: the analysis fails exactly when the cut is in a
   footer before its offsets end, and counts exactly the whole records otherwise.
   */
  lemma CutFileCountsWholeRecords(subfiles: seq<seq<Rec>>, last: seq<Rec>, k: nat)
    requires ValidFile(subfiles) && Valid(last) && k <= |Body(last)|
    ensures Analyse(EncodeFile(subfiles) + (MAGIC + Body(last))[..8 + k], 0, 0, 0, 0) == CutReport(subfiles, last, k)
  {
    var all := MAGIC + Body(last);
    FileSize(subfiles);
    CutParts(EncodeFile(subfiles), all, 8 + k);
    AnalyseParts(EncodeFile(subfiles) + all[..8 + k], subfiles, last, k);
  }

  lemma {:induction false} AnalyseParts(data: seq<byte>, subfiles: seq<seq<Rec>>, last: seq<Rec>, k: nat)
    requires ValidFile(subfiles) && Valid(last) && |data| == SizeFile(subfiles) + 8 + k
    requires HasFirst(data, 0, EncodeFile(subfiles), SizeFile(subfiles))
    requires HasFirst(data, SizeFile(subfiles), MAGIC + Body(last), 8 + k)
    ensures Analyse(data, 0, 0, 0, 0) == CutReport(subfiles, last, k)
  {
    var report := Analyse(data, SizeFile(subfiles), |subfiles|, Records(subfiles), AllChunks(subfiles));
    assert Analyse(data, 0, 0, 0, 0) == report by { AnalyseAll(data, 0, subfiles, 0, 0, 0); }
    AnalyseCut(data, SizeFile(subfiles), last, k, |subfiles|, Records(subfiles), AllChunks(subfiles));
  }

  lemma CutParts(a: seq<byte>, b: seq<byte>, k: nat)
    requires k <= |b|
    ensures HasFirst(a + b[..k], 0, a, |a|) && HasFirst(a + b[..k], |a|, b, k)
  {
    var data := a + b[..k];
    HasSelf(data);
    HasParts(data, 0, a, b[..k], |data|);
    forall j: nat | j < k ensures SameByte(data, |a|, b, j) { assert SameByte(data, |a|, b[..k], j); }
  }

  // ---- damaged files ----

  function EncodeAll(rs: seq<Rec>): (s: seq<byte>)
    ensures |s| == SizeAll(rs)
  {
    if rs == [] then [] else Encode(rs[0]) + EncodeAll(rs[1..])
  }

  /** What the analyser finds at each step through whole records. */
  predicate RecordsLaid(data: seq<byte>, i: nat, rs: seq<Rec>)
    requires i <= |data|
    decreases |rs|
  {
    rs == [] || (
      && Look(data, i) == Record(rs[0].op, i + Size(rs[0]))
      && RecordsLaid(data, i + Size(rs[0]), rs[1..]))
  }

  lemma {:induction false} RecordsLaidCons(data: seq<byte>, i: nat, rs: seq<Rec>, next: nat)
    requires rs != [] && next == i + Size(rs[0]) <= |data|
    requires Look(data, i) == Record(rs[0].op, next) && RecordsLaid(data, next, rs[1..])
    ensures RecordsLaid(data, i, rs)
  {
  }

  lemma {:induction false} RecordsAreLaid(data: seq<byte>, i: nat, rs: seq<Rec>)
    requires Valid(rs) && HasFirst(data, i, EncodeAll(rs), SizeAll(rs))
    ensures RecordsLaid(data, i, rs)
    decreases |rs|
  {
    if rs != [] {
      var r, rest, next := rs[0], rs[1..], i + Size(rs[0]);
      RecordHasParts(data, i, next, EncodeAll(rs), r, EncodeAll(rest), SizeAll(rs));
      LookAtWhole(data, i, r);
      RecordsAreLaid(data, next, rest);
      RecordsLaidCons(data, i, rs, next);
    }
  }

  lemma {:induction false} ScanOne(data: seq<byte>, i: nat, r: Rec, next: nat, records: nat, chunks: nat)
    requires i <= |data| && next == i + Size(r) && Look(data, i) == Record(r.op, next)
    ensures Scan(data, i, records, chunks) == Scan(data, next, records + 1, chunks + ChunksIn(r.op))
  {
  }

  /** Whole records are counted, whatever follows them. */
  lemma {:induction false} RecordsAreCounted(
    data: seq<byte>, i: nat, end: nat, rs: seq<Rec>, records: nat, chunks: nat)
    requires end == i + SizeAll(rs) <= |data| && RecordsLaid(data, i, rs)
    ensures Scan(data, i, records, chunks) == Scan(data, end, records + |rs|, chunks + Chunks(rs))
    decreases |rs|
  {
    if rs != [] {
      var r, next := rs[0], i + Size(rs[0]);
      ScanOne(data, i, r, next, records, chunks);
      RecordsAreCounted(data, next, end, rs[1..], records + 1, chunks + ChunksIn(r.op));
    }
  }

  lemma {:induction false} MagicBehind(a: seq<byte>, more: seq<byte>)
    ensures AtMagic(a + more, |a|) <==> AtMagic(more, 0)
  {
    assert forall j: nat :: j < |more| ==> (a + more)[|a| + j] == more[j];
  }

  /** What begins with neither the magic nor the code of a record. */
  predicate Damage(more: seq<byte>) {
    more == [] || (!AtMagic(more, 0) && !(0x01 <= more[0] <= 0x0F))
  }

  lemma {:induction false} Parts(a: seq<byte>, b: seq<byte>)
    ensures HasFirst(a + b, 0, a, |a|) && HasFirst(a + b, |a|, b, |b|)
  {
    HasSelf(a + b);
    HasParts(a + b, 0, a, b, |a + b|);
  }

  lemma {:induction false} AnalyseStops(data: seq<byte>, i: nat, n: nat, records: nat, chunks: nat)
    requires i <= |data| && !AtMagic(data, i)
    ensures Analyse(data, i, n, records, chunks) == Report(n, records, chunks)
  {
  }

  /** Bytes behind the last sub-file that are no magic end the analysis. */
  lemma {:induction false} TrailingIsIgnored(subfiles: seq<seq<Rec>>, more: seq<byte>)
    requires ValidFile(subfiles) && !AtMagic(more, 0)
    ensures Analyse(EncodeFile(subfiles) + more, 0, 0, 0, 0)
         == Report(|subfiles|, Records(subfiles), AllChunks(subfiles))
  {
    FileSize(subfiles);
    Parts(EncodeFile(subfiles), more);
    MagicBehind(EncodeFile(subfiles), more);
    var data := EncodeFile(subfiles) + more;
    AnalyseAll(data, 0, subfiles, 0, 0, 0);
    AnalyseStops(data, SizeFile(subfiles), |subfiles|, Records(subfiles), AllChunks(subfiles));
  }

  /** A sub-file damaged behind some records: those are counted, and nothing of what follows is. */
  lemma {:induction false} DamageEndsCount(subfiles: seq<seq<Rec>>, rs: seq<Rec>, more: seq<byte>)
    requires ValidFile(subfiles) && Valid(rs) && Damage(more)
    ensures Analyse(EncodeFile(subfiles) + (MAGIC + EncodeAll(rs) + more), 0, 0, 0, 0)
         == Report(|subfiles| + 1, Records(subfiles) + |rs|, AllChunks(subfiles) + Chunks(rs))
  {
    var last := MAGIC + EncodeAll(rs) + more;
    FileSize(subfiles);
    Parts(EncodeFile(subfiles), last);
    DamagedFile(EncodeFile(subfiles) + last, subfiles, rs, more, last);
  }

  lemma {:induction false} DamagedFile(
    data: seq<byte>, subfiles: seq<seq<Rec>>, rs: seq<Rec>, more: seq<byte>, last: seq<byte>)
    requires ValidFile(subfiles) && Valid(rs) && Damage(more) && last == MAGIC + EncodeAll(rs) + more
    requires |data| == SizeFile(subfiles) + |last| && HasFirst(data, SizeFile(subfiles), last, |last|)
    requires HasFirst(data, 0, EncodeFile(subfiles), SizeFile(subfiles))
    ensures Analyse(data, 0, 0, 0, 0)
         == Report(|subfiles| + 1, Records(subfiles) + |rs|, AllChunks(subfiles) + Chunks(rs))
  {
    var report := Analyse(data, SizeFile(subfiles), |subfiles|, Records(subfiles), AllChunks(subfiles));
    assert Analyse(data, 0, 0, 0, 0) == report by { AnalyseAll(data, 0, subfiles, 0, 0, 0); }
    DamagedSubfile(data, SizeFile(subfiles), rs, more, last, |subfiles|, Records(subfiles), AllChunks(subfiles));
  }

  lemma {:induction false} DamagedSubfile(
    data: seq<byte>, i: nat, rs: seq<Rec>, more: seq<byte>, last: seq<byte>, n: nat, records: nat, chunks: nat)
    requires Valid(rs) && Damage(more) && last == MAGIC + EncodeAll(rs) + more
    requires |data| == i + |last| && HasFirst(data, i, last, |last|)
    ensures Analyse(data, i, n, records, chunks) == Report(n + 1, records + |rs|, chunks + Chunks(rs))
  {
    var at := i + 8 + SizeAll(rs);
    HasParts(data, i, MAGIC + EncodeAll(rs), more, |last|);
    HasParts(data, i, MAGIC, EncodeAll(rs), 8 + SizeAll(rs));
    MagicAt(data, i);
    RecordsAreLaid(data, i + 8, rs);
    RecordsAreCounted(data, i + 8, at, rs, 0, 0);
    LookAtDamage(data, at, more);
    AnalyseEnd(data, n + 1, records + |rs|, chunks + Chunks(rs));
  }

  lemma {:induction false} LookAtDamage(data: seq<byte>, i: nat, more: seq<byte>)
    requires Damage(more) && |data| == i + |more| && HasFirst(data, i, more, |more|)
    ensures Look(data, i) == End(|data|, false, false)
  {
    if more != [] { assert SameByte(data, i, more, 0); }
    if |more| >= 8 {
      assert SameByte(data, i, more, 1) && SameByte(data, i, more, 2) && SameByte(data, i, more, 3);
      assert SameByte(data, i, more, 4) && SameByte(data, i, more, 5) && SameByte(data, i, more, 6);
      assert SameByte(data, i, more, 7);
    }
  }
}
