/**
  How a session's records are spread over segment files, and what the files of many sessions, each cut off
  in its last segment, still give back.
 */
module Layout {
  import opened Types
  import opened Record
  import opened Reader

  const SEGMENT_SIZE: nat := 64 * 1024 * 1024

  /** The log directory: file contents by segment index. */
  type Files = map<int, Bytes>

  // ---------------------------------------------------------------- one session

  function Last<T>(s: seq<T>): T
    requires s != []
  {
    s[|s| - 1]
  }

  function Front<T>(s: seq<T>): seq<T>
    requires s != []
  {
    s[..|s| - 1]
  }

  /** One more record: it goes to the open segment, which is closed once it has reached the segment size. */
  function AddTo(segs: seq<seq<WalRecord>>, r: WalRecord, crc: Checksum): (t: seq<seq<WalRecord>>)
    requires segs != []
    ensures t != []
  {
    var full := Last(segs) + [r];
    Front(segs) + [full] + if |EncodeAll(full, crc)| >= SEGMENT_SIZE then [[]] else []
  }

  /** The segments of a session that appended rs; the last one is open. */
  function Segments(rs: seq<WalRecord>, crc: Checksum): (t: seq<seq<WalRecord>>)
    ensures t != []
  {
    if rs == [] then [[]] else AddTo(Segments(Front(rs), crc), Last(rs), crc)
  }

  function Flat(segs: seq<seq<WalRecord>>): seq<WalRecord> {
    if segs == [] then [] else segs[0] + Flat(segs[1..])
  }

  lemma {:induction false} FlatConcat(a: seq<seq<WalRecord>>, b: seq<seq<WalRecord>>)
    ensures Flat(a + b) == Flat(a) + Flat(b)
  {
    if a == [] {
      assert a + b == b;
    } else {
      assert (a + b)[1..] == a[1..] + b;
      FlatConcat(a[1..], b);
    }
  }

  lemma FlatOne(rs: seq<WalRecord>)
    ensures Flat([rs]) == rs
  {
    assert [rs][1..] == [];
  }

  lemma FlatLast(segs: seq<seq<WalRecord>>)
    requires segs != []
    ensures Flat(segs) == Flat(Front(segs)) + Last(segs)
  {
    assert segs == Front(segs) + [Last(segs)];
    FlatConcat(Front(segs), [Last(segs)]);
    FlatOne(Last(segs));
  }

  lemma AddToFlat(segs: seq<seq<WalRecord>>, r: WalRecord, crc: Checksum)
    requires segs != []
    ensures Flat(AddTo(segs, r, crc)) == Flat(segs) + [r]
  {
    hide Flat, EncodeAll;
    var full := Last(segs) + [r];
    var t := Front(segs) + [full];
    FlatLast(segs);
    FlatLast(t);
    FlatConcat(t, [[]]);
    FlatOne([]);
    assert Front(t) == Front(segs);
    assert Flat(Front(segs)) + full == Flat(Front(segs)) + Last(segs) + [r];
    assert t + [] == t;
  }

  /** No record is split, lost or moved: the segments in order are the records in order. */
  lemma {:induction false} SegmentsFlat(rs: seq<WalRecord>, crc: Checksum)
    ensures Flat(Segments(rs, crc)) == rs
  {
    hide Flat, EncodeAll, AddTo;
    FlatOne([]);
    if rs != [] {
      SegmentsFlat(Front(rs), crc);
      AddToFlat(Segments(Front(rs), crc), Last(rs), crc);
    }
  }

  ghost predicate Closed(seg: seq<WalRecord>, crc: Checksum) {
    seg != [] && |EncodeAll(Front(seg), crc)| < 67_108_864 <= |EncodeAll(seg, crc)|
  }

  /** Every closed segment reached the segment size with its last record and not before; the open one has not. */
  lemma {:induction false} SegmentSizes(rs: seq<WalRecord>, crc: Checksum)
    ensures var segs := Segments(rs, crc);
      && (forall i :: 0 <= i < |segs| - 1 ==> Closed(segs[i], crc))
      && |EncodeAll(Last(segs), crc)| < 67_108_864
  {
    hide EncodeAll;
    EncodeNone(crc);
    if rs != [] {
      SegmentSizes(Front(rs), crc);
      var segs := Segments(Front(rs), crc);
      var full := Last(segs) + [Last(rs)];
      assert Front(full) == Last(segs);
    }
  }

  lemma EncodeNone(crc: Checksum)
    ensures EncodeAll([], crc) == []
  {
  }

  lemma {:induction false} EncodeConcat(rs: seq<WalRecord>, ts: seq<WalRecord>, crc: Checksum)
    ensures EncodeAll(rs + ts, crc) == EncodeAll(rs, crc) + EncodeAll(ts, crc)
  {
    if rs == [] {
      assert rs + ts == ts;
    } else {
      assert (rs + ts)[1..] == rs[1..] + ts;
      EncodeConcat(rs[1..], ts, crc);
      var e := Encoding(rs[0], crc);
      assert e + (EncodeAll(rs[1..], crc) + EncodeAll(ts, crc)) == e + EncodeAll(rs[1..], crc) + EncodeAll(ts, crc);
    }
  }

  lemma EncodeAppend(rs: seq<WalRecord>, r: WalRecord, crc: Checksum)
    ensures EncodeAll(rs + [r], crc) == EncodeAll(rs, crc) + Encoding(r, crc)
  {
    EncodeConcat(rs, [r], crc);
    assert [r][1..] == [];
    assert EncodeAll([r], crc) == Encoding(r, crc) + EncodeAll([], crc);
  }

  // ---------------------------------------------------------------- many sessions

  /** What a session appended, and how many bytes of its last segment survive. */
  datatype Session = Session(appended: seq<WalRecord>, kept: nat)

  function Take(bs: Bytes, n: nat): Bytes {
    if n <= |bs| then bs[..n] else bs
  }

  function EncodeEach(segs: seq<seq<WalRecord>>, crc: Checksum): (t: seq<Bytes>)
    ensures |t| == |segs|
  {
    seq(|segs|, i requires 0 <= i < |segs| => EncodeAll(segs[i], crc))
  }

  /** The files of a session: closed segments are whole, the last one is a prefix. */
  function SessionFiles(s: Session, crc: Checksum): seq<Bytes> {
    var segs := Segments(s.appended, crc);
    EncodeEach(Front(segs), crc) + [Take(EncodeAll(Last(segs), crc), s.kept)]
  }

  /** The records of a session that the cut spares. */
  function Survivors(s: Session, crc: Checksum): seq<WalRecord> {
    var segs := Segments(s.appended, crc);
    Flat(Front(segs)) + Whole(Last(segs), s.kept, crc)
  }

  function AllFiles(h: seq<Session>, crc: Checksum): seq<Bytes> {
    if h == [] then [] else AllFiles(Front(h), crc) + SessionFiles(Last(h), crc)
  }

  function AllSurvivors(h: seq<Session>, crc: Checksum): seq<WalRecord> {
    if h == [] then [] else AllSurvivors(Front(h), crc) + Survivors(Last(h), crc)
  }

  lemma FilesPush(h: seq<Session>, s: Session, crc: Checksum)
    ensures AllFiles(h + [s], crc) == AllFiles(h, crc) + SessionFiles(s, crc)
  {
    assert Front(h + [s]) == h;
  }

  /** A session loses a suffix of its records at most, and nothing if its last segment is whole. */
  lemma SurvivorsPrefix(s: Session, crc: Checksum)
    ensures Survivors(s, crc) <= s.appended
    ensures s.kept >= |EncodeAll(Last(Segments(s.appended, crc)), crc)| ==> Survivors(s, crc) == s.appended
  {
    hide Segments, Whole, EncodeAll;
    var segs := Segments(s.appended, crc);
    SegmentsFlat(s.appended, crc);
    FlatLast(segs);
    WholePrefix(Last(segs), s.kept, crc);
    var n := |Whole(Last(segs), s.kept, crc)|;
    assert s.appended == Flat(Front(segs)) + (Last(segs)[..n] + Last(segs)[n..]);
  }

  // ---------------------------------------------------------------- reading it all back

  lemma {:induction false} ReadConcat(a: seq<Bytes>, b: seq<Bytes>, crc: Checksum)
    requires ReadAll(a, crc).error.None?
    ensures ReadAll(a + b, crc) == Then(ReadAll(a, crc).records, ReadAll(b, crc))
  {
    hide Parse;
    if a == [] {
      assert a + b == b;
    } else {
      assert (a + b)[1..] == a[1..] + b;
      ReadConcat(a[1..], b, crc);
      var p := Parse(a[0], crc).records;
      assert p + (ReadAll(a[1..], crc).records + ReadAll(b, crc).records)
        == p + ReadAll(a[1..], crc).records + ReadAll(b, crc).records;
    }
  }

  lemma ReadOne(data: Bytes, crc: Checksum)
    ensures ReadAll([data], crc) == Parse(data, crc)
  {
    hide Parse;
    assert [data][1..] == [];
    assert Parse(data, crc).records + [] == Parse(data, crc).records;
  }

  lemma {:induction false} ReadEach(segs: seq<seq<WalRecord>>, crc: Checksum)
    requires AllFramed(Flat(segs))
    ensures ReadAll(EncodeEach(segs, crc), crc) == Stream(Flat(segs), None)
  {
    hide Parse, EncodeAll, Whole;
    if segs != [] {
      var rs := segs[0];
      FramedParts(rs, Flat(segs[1..]));
      TornTail(rs, |EncodeAll(rs, crc)|, crc);
      WholePrefix(rs, |EncodeAll(rs, crc)|, crc);
      assert EncodeAll(rs, crc)[..|EncodeAll(rs, crc)|] == EncodeAll(rs, crc);
      assert EncodeEach(segs, crc)[1..] == EncodeEach(segs[1..], crc);
      ReadEach(segs[1..], crc);
    }
  }

  lemma FramedParts(a: seq<WalRecord>, b: seq<WalRecord>)
    requires AllFramed(a + b)
    ensures AllFramed(a) && AllFramed(b)
  {
    assert forall i :: 0 <= i < |a| ==> (a + b)[i] == a[i];
    assert forall i :: 0 <= i < |b| ==> (a + b)[|a| + i] == b[i];
  }

  lemma SessionReplay(s: Session, crc: Checksum)
    requires AllFramed(s.appended)
    ensures ReadAll(SessionFiles(s, crc), crc) == Stream(Survivors(s, crc), None)
  {
    hide Parse, EncodeAll, Whole, Segments, ReadAll;
    var segs := Segments(s.appended, crc);
    SegmentsFlat(s.appended, crc);
    FlatLast(segs);
    FramedParts(Flat(Front(segs)), Last(segs));
    ReadEach(Front(segs), crc);
    var end := EncodeAll(Last(segs), crc);
    TornTail(Last(segs), if s.kept <= |end| then s.kept else |end|, crc);
    WholePrefix(Last(segs), s.kept, crc);
    WholePrefix(Last(segs), |end|, crc);
    assert end[..|end|] == end;
    ReadOne(Take(end, s.kept), crc);
    ReadConcat(EncodeEach(Front(segs), crc), [Take(end, s.kept)], crc);
  }

  /**
    Over any number of sessions, each torn anywhere in its last segment, replay gives the surviving prefix of
    each session, one after the other, and no error.
   */
  lemma {:induction false} HistoryReplay(h: seq<Session>, crc: Checksum)
    requires forall i :: 0 <= i < |h| ==> AllFramed(h[i].appended)
    ensures ReadAll(AllFiles(h, crc), crc) == Stream(AllSurvivors(h, crc), None)
  {
    hide ReadAll, SessionFiles, Survivors;
    ReadNothing(crc);
    if h != [] {
      HistoryReplay(Front(h), crc);
      SessionReplay(Last(h), crc);
      ReadConcat(AllFiles(Front(h), crc), SessionFiles(Last(h), crc), crc);
    }
  }

  // ---------------------------------------------------------------- a damaged log

  /**
    A damaged record is never passed over in silence. After any number of torn sessions, a segment holds whole records
    and then a frame whose checksum is not that of its body, or whose type is unknown: replay hands out the surviving
    records beyond afterSeq and reports exactly that, whatever stands behind it. A failing callback comes first.
   */
  lemma DamageReported<S>(h: seq<Session>, rs: seq<WalRecord>, body: Bytes, stored: U32, rest: Bytes, back: seq<Bytes>,
                          afterSeq: U64, init: S, f: Callback<S>, crc: Checksum)
    requires (forall i :: 0 <= i < |h| ==> AllFramed(h[i].appended)) && AllFramed(rs)
    requires |body| < 0x1_0000_0000 && (stored == crc(body) ==> |body| >= 17 && (body[16] == 0 || body[16] > 3))
    ensures var files := AllFiles(h, crc) + [EncodeAll(rs, crc) + (Frame(body, stored) + rest)] + back;
      var due := Beyond(AllSurvivors(h, crc) + rs, afterSeq);
      var out := Consume(ReadAll(files, crc), afterSeq, init, afterSeq, f);
      && out.last.Err?
      && ((forall k :: 0 <= k < |due| ==> !Fails(due, init, f, k)) ==>
            out == Outcome(Fold(due, init, f),
              Err(if stored != crc(body) then Crc(stored, crc(body)) else Serialise(body[16]))))
  {
    hide ReadAll, Parse, EncodeAll, Consume, Fold, Beyond, Fails, Decode, Frame, AllFiles, AllSurvivors;
    var bad := Frame(body, stored) + rest;
    var data := EncodeAll(rs, crc) + bad;
    FrameVerdict(body, stored, rest, crc);
    ParseDamaged(rs, bad, if stored != crc(body) then Crc(stored, crc(body)) else Serialise(body[16]), crc);
    HistoryReplay(h, crc);
    ReadDamaged(data, back, crc);
    ReadConcat(AllFiles(h, crc), [data] + back, crc);
    assert AllFiles(h, crc) + [data] + back == AllFiles(h, crc) + ([data] + back);
    var s := ReadAll(AllFiles(h, crc) + [data] + back, crc);
    ConsumeExactly(s, afterSeq, init, afterSeq, f);
    if forall k :: 0 <= k < |Beyond(s.records, afterSeq)| ==> !Fails(Beyond(s.records, afterSeq), init, f, k) {
      ConsumeEnds(s, afterSeq, init, afterSeq, f);
    }
  }

  /** Reading stops at the first segment with an error. */
  lemma ReadDamaged(data: Bytes, back: seq<Bytes>, crc: Checksum)
    requires Parse(data, crc).error.Some?
    ensures ReadAll([data] + back, crc) == Parse(data, crc)
  {
    hide Parse;
  }

  // ---------------------------------------------------------------- what is delivered

  /** A callback that keeps every record it is given. */
  function Collector(): Callback<seq<WalRecord>> {
    (got: seq<WalRecord>, r: WalRecord) => (got + [r], None)
  }

  lemma {:induction false} CollectorKeeps(rs: seq<WalRecord>, got: seq<WalRecord>)
    ensures Fold(rs, got, Collector()) == got + rs
    decreases |rs|
  {
    if rs == [] {
      assert got + rs == got;
    } else {
      CollectorKeeps(rs[1..], got + [rs[0]]);
      assert got + [rs[0]] + rs[1..] == got + rs;
    }
  }

  /**
    A log cut at any byte delivers exactly the wholly contained records beyond afterSeq, in order, and the last
    number.
   */
  lemma CutDelivers(rs: seq<WalRecord>, cut: nat, afterSeq: U64, crc: Checksum)
    requires AllFramed(rs) && cut <= |EncodeAll(rs, crc)|
    ensures var due := Beyond(Whole(rs, cut, crc), afterSeq);
      Consume(ReadAll([EncodeAll(rs, crc)[..cut]], crc), afterSeq, [], afterSeq, Collector())
      == Outcome(due, Ok(if due == [] then afterSeq else Last(due).seqNo))
  {
    hide ReadAll, Parse, EncodeAll, Whole, Consume, Fold, Beyond;
    TornTail(rs, cut, crc);
    ReadOne(EncodeAll(rs, crc)[..cut], crc);
    ConsumeFolds(Stream(Whole(rs, cut, crc), None), afterSeq, [], afterSeq, Collector());
    CollectorKeeps(Beyond(Whole(rs, cut, crc), afterSeq), []);
    assert [] + Beyond(Whole(rs, cut, crc), afterSeq) == Beyond(Whole(rs, cut, crc), afterSeq);
  }
}
