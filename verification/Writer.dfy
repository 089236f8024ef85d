/**
  The log writer: it appends encoded records to the open segment through a buffer, rolls to a new segment when the
  open one is full, and always starts above the highest segment it finds.
 */
module Writer {
  import opened Record
  import opened Reader
  import opened Layout
  import SM = StopMap

  datatype FsyncPolicy = PerRecord | Every(n: nat) | Off

  /** The files of a log directory as the operating system has them. */
  class Disk {
    var files: Files

    constructor ()
      ensures files == map[]
    {
      files := map[];
    }
  }

  function Contents(ks: seq<int>, files: Files): seq<Bytes>
    requires forall i :: 0 <= i < |ks| ==> ks[i] in files
  {
    seq(|ks|, i requires 0 <= i < |ks| => files[ks[i]])
  }

  function Indexes(files: Files): (ks: seq<int>)
    ensures forall i :: 0 <= i < |ks| ==> ks[i] in files
  {
    var ks := SM.SortedKeys(files.Keys);
    assert forall i :: 0 <= i < |ks| ==> ks[i] in ks;
    ks
  }

  /** File contents in index order, as the reader lists them. */
  function Listing(files: Files): seq<Bytes> {
    Contents(Indexes(files), files)
  }

  /** A file above all others is listed last. */
  lemma ListingTop(low: Files, k: int, data: Bytes)
    requires forall j :: j in low ==> j < k
    ensures Listing(low[k := data]) == Listing(low) + [data]
  {
    hide Indexes, Contents;
    IndexesTop(low, k, data);
    ContentsPush(Indexes(low), low, k, data);
  }

  lemma IndexesTop(low: Files, k: int, data: Bytes)
    requires forall j :: j in low ==> j < k
    ensures Indexes(low[k := data]) == Indexes(low) + [k]
  {
    hide SM.SortedKeys;
    assert low[k := data].Keys == low.Keys + {k};
    SM.SortedAppend(low.Keys, k);
  }

  lemma ContentsPush(ks: seq<int>, low: Files, k: int, data: Bytes)
    requires (forall i :: 0 <= i < |ks| ==> ks[i] in low) && k !in low
    ensures forall i :: 0 <= i < |ks| + 1 ==> (ks + [k])[i] in low[k := data]
    ensures Contents(ks + [k], low[k := data]) == Contents(ks, low) + [data]
  {
  }

  /** Every(0) makes the source divide by zero. */
  predicate Sane(fsync: FsyncPolicy) {
    fsync.Every? ==> fsync.n > 0
  }

  /** How many of n appended records the policy has put on disk. */
  function Safe(fsync: FsyncPolicy, n: nat): nat
    requires Sane(fsync)
  {
    match fsync
    case PerRecord => n
    case Every(k) => n - n % k
    case Off => 0
  }

  lemma {:induction false} WholeGrows(rs: seq<WalRecord>, cut: nat, ts: seq<WalRecord>, cut': nat, crc: Checksum)
    requires cut <= cut'
    ensures Whole(rs, cut, crc) <= Whole(rs + ts, cut', crc)
  {
    hide Encoding;
    if rs != [] && cut >= |Encoding(rs[0], crc)| {
      assert (rs + ts)[1..] == rs[1..] + ts;
      WholeGrows(rs[1..], cut - |Encoding(rs[0], crc)|, ts, cut' - |Encoding(rs[0], crc)|, crc);
    }
  }

  /** Appending never loses what had survived before. */
  lemma SurvivorsGrow(rs: seq<WalRecord>, r: WalRecord, kept: nat, kept': nat, crc: Checksum)
    requires |Segments(rs + [r], crc)| == |Segments(rs, crc)| ==> kept <= kept'
    ensures |Survivors(Session(rs, kept), crc)| <= |Survivors(Session(rs + [r], kept'), crc)|
  {
    hide EncodeAll, Whole, Segments;
    var segs := Segments(rs, crc);
    SegmentsStep(rs, r, crc);
    var segs' := Segments(rs + [r], crc);
    if |segs'| == |segs| {
      WholeGrows(Last(segs), kept, [r], kept', crc);
      assert Front(segs') == Front(segs);
    } else {
      SurvivorsPrefix(Session(rs, kept), crc);
      SegmentsFlat(rs + [r], crc);
      FlatLast(segs');
      assert Last(segs') == [];
    }
  }

  lemma SegmentsStep(rs: seq<WalRecord>, r: WalRecord, crc: Checksum)
    ensures Segments(rs + [r], crc) == AddTo(Segments(rs, crc), r, crc)
  {
    assert Front(rs + [r]) == rs;
  }

  lemma LastLargest(ks: seq<int>, s: set<int>)
    requires forall k :: k in s <==> k in ks
    requires forall i, j :: 0 <= i < j < |ks| ==> ks[i] < ks[j]
    ensures forall k :: k in s ==> ks != [] && k <= ks[|ks| - 1]
  {
    forall k | k in s ensures ks != [] && k <= ks[|ks| - 1] {
      var i :| 0 <= i < |ks| && ks[i] == k;
    }
  }

  /** One above the highest segment, or 1. */
  function NextIndex(files: Files): (k: nat)
    ensures k > 0 && (forall j :: j in files ==> j < k) && (k == 1 || k - 1 in files)
  {
    hide SM.SortedKeys;
    var ks := SM.SortedKeys(files.Keys);
    LastLargest(ks, files.Keys);
    if ks == [] || ks[|ks| - 1] < 0 then 1 else ks[|ks| - 1] + 1
  }

  /**
    The directory holds the files found and this session up to what is still in the buffer, which is never more
    than the policy allows.
   */
  ghost predicate Stored(files: Files, k: int, buffer: Bytes, fsync: FsyncPolicy, past: seq<Bytes>,
                         rs: seq<WalRecord>, crc: Checksum): (b: bool)
    requires Sane(fsync)
    ensures b ==>
      && k in files && (forall j :: j in files ==> j <= k)
      && files[k] + buffer == EncodeAll(Last(Segments(rs, crc)), crc)
  {
    && k in files && (forall j :: j in files ==> j <= k)
    && files[k] + buffer == EncodeAll(Last(Segments(rs, crc)), crc)
    && Listing(files - {k}) == past + EncodeEach(Front(Segments(rs, crc)), crc)
    && |Survivors(Session(rs, |files[k]|), crc)| >= Safe(fsync, |rs|)
  }

  lemma SafeStep(fsync: FsyncPolicy, m: nat)
    requires Sane(fsync) && (fsync.Every? ==> (m + 1) % fsync.n != 0)
    requires !fsync.PerRecord?
    ensures Safe(fsync, m + 1) == Safe(fsync, m)
  {
    if fsync.Every? {
      ModStep(m, fsync.n);
    }
  }

  lemma ModStep(m: nat, n: nat)
    requires n > 0 && (m + 1) % n != 0
    ensures (m + 1) % n == m % n + 1
  {
    var q, r := m / n, m % n;
    var q', r' := (m + 1) / n, (m + 1) % n;
    assert m == n * q + r && m + 1 == n * q' + r';
    if r + 1 == n {
      assert n * (q + 1) == n * q + n;
      DivUnique(n, q', r', q + 1, 0);
    } else {
      DivUnique(n, q', r', q, r + 1);
    }
  }

  lemma StoredKept(files: Files, files': Files, k: int, buffer: Bytes, buffer': Bytes, fsync: FsyncPolicy,
                   past: seq<Bytes>, rs: seq<WalRecord>, rec: WalRecord, crc: Checksum)
    requires Sane(fsync) && Stored(files, k, buffer, fsync, past, rs, crc)
    requires k in files' && files' == files[k := files'[k]] && files[k] <= files'[k]
    requires files'[k] + buffer' == EncodeAll(Last(Segments(rs, crc)) + [rec], crc)
    requires |EncodeAll(Last(Segments(rs, crc)) + [rec], crc)| < SEGMENT_SIZE
    requires fsync.PerRecord? || (fsync.Every? && (|rs| + 1) % fsync.n == 0) ==> buffer' == []
    ensures Stored(files', k, buffer', fsync, past, rs + [rec], crc)
  {
    hide Segments, EncodeAll, Survivors, Listing, AllFiles, EncodeEach;
    SegmentsStep(rs, rec, crc);
    var segs := Segments(rs, crc);
    var full := Last(segs) + [rec];
    assert Segments(rs + [rec], crc) == Front(segs) + [full];
    assert Front(Front(segs) + [full]) == Front(segs);
    assert files' - {k} == files - {k};
    if buffer' == [] {
      SurvivorsPrefix(Session(rs + [rec], |files'[k]|), crc);
    } else {
      SurvivorsGrow(rs, rec, |files[k]|, |files'[k]|, crc);
      SafeStep(fsync, |rs|);
    }
  }

  lemma StoredRolled(files: Files, files': Files, k: int, buffer: Bytes, fsync: FsyncPolicy,
                     past: seq<Bytes>, rs: seq<WalRecord>, rec: WalRecord, crc: Checksum)
    requires Sane(fsync) && Stored(files, k, buffer, fsync, past, rs, crc)
    requires var full := EncodeAll(Last(Segments(rs, crc)) + [rec], crc);
      files' == files[k := full][k + 1 := []] && |full| >= SEGMENT_SIZE
    ensures Stored(files', k + 1, [], fsync, past, rs + [rec], crc)
  {
    hide Segments, EncodeAll, Survivors, Listing, AllFiles, EncodeEach;
    SegmentsStep(rs, rec, crc);
    EncodeNone(crc);
    var segs := Segments(rs, crc);
    var full := Last(segs) + [rec];
    var segs' := Segments(rs + [rec], crc);
    assert segs' == Front(segs) + [full] + [[]];
    assert Front(segs') == Front(segs) + [full] && Last(segs') == [];
    ListingTop(files - {k}, k, EncodeAll(full, crc));
    assert files' - {k + 1} == (files - {k})[k := EncodeAll(full, crc)];
    EachPush(Front(segs), full, crc);
    SurvivorsPrefix(Session(rs + [rec], 0), crc);
  }

  lemma EachPush(segs: seq<seq<WalRecord>>, full: seq<WalRecord>, crc: Checksum)
    ensures EncodeEach(segs + [full], crc) == EncodeEach(segs, crc) + [EncodeAll(full, crc)]
  {
  }

  class WalWriter {
    const disk: Disk
    const fsync: FsyncPolicy
    const crc: Checksum
    var segIdx: nat
    var segBytes: nat
    var buffer: Bytes
    var writeCount: nat
    /** The files found on opening, whoever wrote them. */
    ghost const past: seq<Bytes>
    ghost var appended: seq<WalRecord>

    /** The open segment: what is on disk of it, and the records it will hold once the buffer is out. */
    ghost function OnDisk(): Bytes
      reads this, disk
    {
      if segIdx in disk.files then disk.files[segIdx] else []
    }

    ghost function Open(): seq<WalRecord>
      reads this
    {
      Last(Segments(appended, crc))
    }

    ghost function This(): Session
      reads this, disk
    {
      Session(appended, |OnDisk()|)
    }

    ghost predicate Valid()
      reads this, disk
    {
      && Sane(fsync)
      && Stored(disk.files, segIdx, buffer, fsync, past, appended, crc)
      && segBytes == |EncodeAll(Open(), crc)| && writeCount == |appended|
    }

    /** What a crash that cuts the open segment at any byte leaves in the directory: one more session to open on. */
    lemma Crash(cut: nat)
      requires Valid() && cut <= |OnDisk()|
      ensures Listing(disk.files[segIdx := OnDisk()[..cut]]) == past + SessionFiles(Session(appended, cut), crc)
    {
      hide Segments, EncodeAll, Survivors, Listing, AllFiles, EncodeEach, Safe;
      var data := OnDisk()[..cut];
      ListingTop(disk.files - {segIdx}, segIdx, data);
      assert (disk.files - {segIdx})[segIdx := data] == disk.files[segIdx := data];
      assert Take(EncodeAll(Open(), crc), cut) == data;
      var each := EncodeEach(Front(Segments(appended, crc)), crc);
      assert past + each + [data] == past + (each + [data]);
    }

    constructor (disk: Disk, fsync: FsyncPolicy, crc: Checksum)
      requires Sane(fsync)
      modifies disk
      ensures Valid() && this.disk == disk && this.fsync == fsync && this.crc == crc
      ensures past == Listing(old(disk.files))
      ensures segIdx !in old(disk.files) && disk.files == old(disk.files)[segIdx := []] && buffer == []
        && appended == []
    {
      hide NextIndex, Listing, AllFiles, EncodeEach, Survivors, EncodeAll;
      this.disk, this.fsync, this.crc, this.past := disk, fsync, crc, Listing(disk.files);
      segIdx := NextIndex(disk.files);
      segBytes, buffer, writeCount, appended := 0, [], 0, [];
      new;
      ghost var before := disk.files;
      disk.files := disk.files[segIdx := []];
      assert disk.files - {segIdx} == before;
      EncodeNone(crc);
      assert EncodeEach([], crc) == [];
      assert past + [] == past;
    }

    /** Bytes go through a buffer, any front part of which may reach the file at once. */
    method WriteAll(bytes: Bytes)
      requires segIdx in disk.files
      modifies `buffer, disk
      ensures segIdx in disk.files && disk.files == old(disk.files)[segIdx := OnDisk()]
      ensures old(OnDisk()) <= OnDisk() && OnDisk() + buffer == old(OnDisk()) + old(buffer) + bytes
    {
      var all := buffer + bytes;
      var early: nat :| early <= |all|;
      disk.files := disk.files[segIdx := disk.files[segIdx] + all[..early]];
      buffer := all[early..];
    }

    method Flush()
      requires segIdx in disk.files
      modifies `buffer, disk
      ensures segIdx in disk.files && disk.files == old(disk.files)[segIdx := OnDisk()]
      ensures buffer == [] && OnDisk() == old(OnDisk()) + old(buffer)
    {
      disk.files := disk.files[segIdx := disk.files[segIdx] + buffer];
      buffer := [];
    }

    /** Close the full segment and open the next one, empty. */
    method RollSegment()
      requires segIdx in disk.files && forall k :: k in disk.files ==> k <= segIdx
      modifies `buffer, `segIdx, `segBytes, disk
      ensures segIdx == old(segIdx) + 1 && segBytes == 0 && buffer == []
      ensures disk.files == old(disk.files)[old(segIdx) := old(OnDisk()) + old(buffer)][segIdx := []]
    {
      Flush();
      segIdx := segIdx + 1;
      segBytes := 0;
      disk.files := disk.files[segIdx := []];
    }

    /** Write the bytes of one record and flush as the policy says. */
    method Store(bytes: Bytes)
      requires segIdx in disk.files && Sane(fsync)
      modifies `buffer, `segBytes, `writeCount, disk
      ensures segIdx in disk.files && disk.files == old(disk.files)[segIdx := OnDisk()]
      ensures old(OnDisk()) <= OnDisk() && OnDisk() + buffer == old(OnDisk()) + old(buffer) + bytes
      ensures segBytes == old(segBytes) + |bytes| && writeCount == old(writeCount) + 1
      ensures fsync.PerRecord? || (fsync.Every? && writeCount % fsync.n == 0) ==> buffer == []
    {
      WriteAll(bytes);
      segBytes := segBytes + |bytes|;
      writeCount := writeCount + 1;
      match fsync {
        case PerRecord => Flush();
        case Every(n) => if writeCount % n == 0 { Flush(); }
        case Off =>
      }
    }

    /** Append one record. */
    method Append(seqNo: U64, ts: U64, recType: RecordType, payload: Bytes)
      requires Valid()
      modifies this, disk
      ensures Valid()
      ensures appended == old(appended) + [WalRecord(seqNo, ts, recType, payload)]
      ensures fsync.PerRecord? ==> buffer == []
      ensures forall k :: k in old(disk.files) ==> k in disk.files && old(disk.files)[k] <= disk.files[k]
      ensures forall k :: k in old(disk.files) && k != old(segIdx) ==> disk.files[k] == old(disk.files)[k]
    {
      hide Segments, EncodeAll, Survivors, Listing, AllFiles, EncodeEach, Encoding, Safe, Stored, Last;
      ghost var files, rs := disk.files, appended;
      var rec := WalRecord(seqNo, ts, recType, payload);
      EncodeAppend(Open(), rec, crc);
      var bytes := Encode(rec, crc);
      Store(bytes);
      appended := appended + [rec];
      if segBytes >= SEGMENT_SIZE {
        RollSegment();
        StoredRolled(files, disk.files, segIdx - 1, old(buffer), fsync, past, rs, rec, crc);
      } else {
        StoredKept(files, disk.files, segIdx, old(buffer), buffer, fsync, past, rs, rec, crc);
      }
    }

    /** After a flush nothing that was appended can be lost with the process. */
    method Finish()
      requires Valid()
      modifies `buffer, disk
      ensures Valid() && buffer == [] && Survivors(This(), crc) == appended
    {
      hide Segments, EncodeAll, Survivors, Listing, AllFiles, EncodeEach;
      ghost var files := disk.files;
      Flush();
      assert disk.files - {segIdx} == files - {segIdx};
      SurvivorsPrefix(This(), crc);
    }
  }
}
