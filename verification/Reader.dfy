/**
  Replay of a segmented log: records are read off the front of each segment until what is left is torn, and those
  beyond a given sequence number are handed to a callback.
 */
module Reader {
  import opened Types
  import opened Record

  /** The records of a log in order, and the error that ended reading, if any. */
  datatype Stream = Stream(records: seq<WalRecord>, error: Option<WalError>)

  /** What a replay leaves: the callback's state, and the last sequence number delivered or an error. */
  datatype Outcome<S> = Outcome(state: S, last: Result<U64>)

  /** A callback changes its state and may fail. */
  type Callback<!S> = (S, WalRecord) -> (S, Option<WalError>)

  function Parse(data: Bytes, crc: Checksum): Stream
    decreases |data|
  {
    if data == [] then Stream([], None)
    else
      match Decode(data, crc)
      case Ok((r, n)) => Then([r], Parse(data[n..], crc))
      case Err(Truncated(_)) => Stream([], None)
      case Err(e) => Stream([], Some(e))
  }

  function Then(rs: seq<WalRecord>, s: Stream): Stream {
    Stream(rs + s.records, s.error)
  }

  /** Segments are read one after the other; a torn end of any segment is passed over. */
  function ReadAll(segments: seq<Bytes>, crc: Checksum): Stream {
    if segments == [] then Stream([], None)
    else
      var first := Parse(segments[0], crc);
      if first.error.Some? then first else Then(first.records, ReadAll(segments[1..], crc))
  }

  function Consume<S>(s: Stream, afterSeq: U64, state: S, last: U64, f: Callback<S>): Outcome<S>
    decreases |s.records|
  {
    if s.records == [] then
      Outcome(state, if s.error.Some? then Err(s.error.value) else Ok(last))
    else
      var r, rest := s.records[0], s.(records := s.records[1..]);
      if r.seqNo <= afterSeq then Consume(rest, afterSeq, state, last, f)
      else
        var (next, e) := f(state, r);
        if e.Some? then Outcome(next, Err(e.value)) else Consume(rest, afterSeq, next, r.seqNo, f)
  }

  /** Where reading stands at offset in segment i. */
  ghost function Ahead(segments: seq<Bytes>, i: nat, offset: nat, crc: Checksum): Stream
    requires i < |segments| && offset <= |segments[i]|
  {
    var rest := Parse(segments[i][offset..], crc);
    if rest.error.Some? then rest else Then(rest.records, ReadAll(segments[i + 1..], crc))
  }

  lemma AheadStep(segments: seq<Bytes>, i: nat, offset: nat, crc: Checksum)
    requires i < |segments| && offset < |segments[i]|
    ensures match Decode(segments[i][offset..], crc)
      case Ok((r, n)) => offset + n <= |segments[i]|
        && Ahead(segments, i, offset, crc) == Then([r], Ahead(segments, i, offset + n, crc))
      case Err(Truncated(_)) => Ahead(segments, i, offset, crc) == ReadAll(segments[i + 1..], crc)
      case Err(e) => Ahead(segments, i, offset, crc) == Stream([], Some(e))
  {
    hide Decode;
    var data := segments[i][offset..];
    match Decode(data, crc)
    case Ok((r, n)) =>
      assert data[n..] == segments[i][offset + n..];
      var rest := Parse(data[n..], crc);
      assert [r] + rest.records + ReadAll(segments[i + 1..], crc).records
        == [r] + (rest.records + ReadAll(segments[i + 1..], crc).records);
    case Err(e) =>
      assert [] + ReadAll(segments[i + 1..], crc).records == ReadAll(segments[i + 1..], crc).records;
  }

  lemma AheadStarts(segments: seq<Bytes>, i: nat, crc: Checksum)
    requires i < |segments|
    ensures Ahead(segments, i, 0, crc) == ReadAll(segments[i..], crc)
  {
    hide Decode, Parse;
    var rest := segments[i..];
    assert rest[0] == segments[i] && rest[1..] == segments[i + 1..];
    assert segments[i][0..] == segments[i];
  }

  lemma AheadEnds(segments: seq<Bytes>, i: nat, crc: Checksum)
    requires i < |segments|
    ensures Ahead(segments, i, |segments[i]|, crc) == ReadAll(segments[i + 1..], crc)
  {
    hide Decode, Parse, ReadAll;
    var rest := ReadAll(segments[i + 1..], crc);
    var end := segments[i][|segments[i]|..];
    assert end == [];
    ParseNothing(crc);
    assert Parse(end, crc) == Stream([], None);
    assert Ahead(segments, i, |segments[i]|, crc) == Then([], rest);
    assert Then([], rest) == rest;
  }

  lemma ParseNothing(crc: Checksum)
    ensures Parse([], crc) == Stream([], None)
  {
  }

  method Replay<S>(segments: seq<Bytes>, afterSeq: U64, init: S, f: Callback<S>, crc: Checksum)
    returns (out: Outcome<S>)
    ensures out == Consume(ReadAll(segments, crc), afterSeq, init, afterSeq, f)
  {
    hide Decode, Parse, ReadAll, Ahead;
    var state, lastSeq := init, afterSeq;
    var i := 0;
    assert segments[0..] == segments;
    while i < |segments|
      invariant 0 <= i <= |segments|
      invariant Consume(ReadAll(segments, crc), afterSeq, init, afterSeq, f)
             == Consume(ReadAll(segments[i..], crc), afterSeq, state, lastSeq, f)
    {
      var data := segments[i];
      var offset := 0;
      AheadStarts(segments, i, crc);
      AheadEnds(segments, i, crc);
      while offset < |data|
        invariant 0 <= offset <= |data|
        invariant Consume(ReadAll(segments, crc), afterSeq, init, afterSeq, f)
               == Consume(Ahead(segments, i, offset, crc), afterSeq, state, lastSeq, f)
      {
        AheadStep(segments, i, offset, crc);
        match Decode(data[offset..], crc)
        case Ok((rec, consumed)) =>
          assert Then([rec], Ahead(segments, i, offset + consumed, crc)).records[1..]
            == Ahead(segments, i, offset + consumed, crc).records;
          offset := offset + consumed;
          if rec.seqNo > afterSeq {
            lastSeq := rec.seqNo;
            var (next, e) := f(state, rec);
            state := next;
            if e.Some? {
              return Outcome(state, Err(e.value));
            }
          }
        case Err(Truncated(_)) =>
          break;
        case Err(e) =>
          return Outcome(state, Err(e));
      }
      i := i + 1;
    }
    ReadNothing(crc);
    assert segments[i..] == [];
    out := Outcome(state, Ok(lastSeq));
  }

  lemma ReadNothing(crc: Checksum)
    ensures ReadAll([], crc) == Stream([], None)
  {
  }

  // ---------------------------------------------------------------- what a cut log still holds

  function EncodeAll(rs: seq<WalRecord>, crc: Checksum): Bytes {
    if rs == [] then [] else Encoding(rs[0], crc) + EncodeAll(rs[1..], crc)
  }

  ghost predicate AllFramed(rs: seq<WalRecord>) {
    forall i :: 0 <= i < |rs| ==> Framed(rs[i])
  }

  /** The records wholly contained in the first cut bytes. */
  function Whole(rs: seq<WalRecord>, cut: nat, crc: Checksum): seq<WalRecord> {
    if rs == [] || cut < |Encoding(rs[0], crc)| then []
    else [rs[0]] + Whole(rs[1..], cut - |Encoding(rs[0], crc)|, crc)
  }

  lemma EncodeTake(rs: seq<WalRecord>, n: nat, crc: Checksum)
    requires 0 < n <= |rs|
    ensures EncodeAll(rs[..n], crc) == Encoding(rs[0], crc) + EncodeAll(rs[1..][..n - 1], crc)
  {
    hide Encoding;
    assert rs[..n][1..] == rs[1..][..n - 1];
  }

  lemma EncodeWhole(rs: seq<WalRecord>, crc: Checksum)
    ensures rs != [] ==> EncodeAll(rs, crc) == Encoding(rs[0], crc) + EncodeAll(rs[1..], crc)
    ensures EncodeAll([], crc) == []
  {
    hide Encoding;
  }

  lemma WholeStep(rs: seq<WalRecord>, cut: nat, crc: Checksum)
    requires rs != []
    ensures Whole(rs, cut, crc) ==
      if cut < |Encoding(rs[0], crc)| then [] else [rs[0]] + Whole(rs[1..], cut - |Encoding(rs[0], crc)|, crc)
  {
    hide Encoding;
  }

  /** Whole is the longest prefix whose encoding fits. */
  lemma {:induction false} WholePrefix(rs: seq<WalRecord>, cut: nat, crc: Checksum)
    ensures var n := |Whole(rs, cut, crc)|;
      && n <= |rs| && Whole(rs, cut, crc) == rs[..n] && |EncodeAll(rs[..n], crc)| <= cut
      && (n < |rs| ==> cut < |EncodeAll(rs[..n + 1], crc)|)
    ensures cut >= |EncodeAll(rs, crc)| ==> Whole(rs, cut, crc) == rs
  {
    hide Encoding, EncodeAll;
    EncodeWhole(rs, crc);
    if rs != [] {
      hide Whole;
      WholeStep(rs, cut, crc);
      if cut >= |Encoding(rs[0], crc)| {
        var n := |Whole(rs, cut, crc)|;
        WholePrefix(rs[1..], cut - |Encoding(rs[0], crc)|, crc);
        EncodeTake(rs, n, crc);
        if n < |rs| { EncodeTake(rs, n + 1, crc); }
      } else {
        assert rs[..0] == [];
        EncodeTake(rs, 1, crc);
      }
    }
  }

  /** Reading a log cut at any byte gives exactly the records wholly contained, and no error. */
  lemma {:induction false} TornTail(rs: seq<WalRecord>, cut: nat, crc: Checksum)
    requires AllFramed(rs) && cut <= |EncodeAll(rs, crc)|
    ensures Parse(EncodeAll(rs, crc)[..cut], crc) == Stream(Whole(rs, cut, crc), None)
    decreases |rs|
  {
    hide Decode, Encoding;
    if rs != [] && cut > 0 {
      var e := Encoding(rs[0], crc);
      var data := EncodeAll(rs, crc)[..cut];
      if cut < |e| {
        TornIsTruncated(rs[0], crc, cut);
        assert data == e[..cut];
      } else {
        DecodeEncoding(rs[0], crc, data);
        assert data[|e|..] == EncodeAll(rs[1..], crc)[..cut - |e|];
        TornTail(rs[1..], cut - |e|, crc);
      }
    }
  }

  /**
    Whatever the bytes: the records read are framed, their encodings stand at the front of the data, and reading stopped
    where no record follows. It is an error there exactly when what follows is not just torn.
   */
  lemma {:induction false} ParseSound(data: Bytes, crc: Checksum)
    ensures var s := Parse(data, crc); var n := |EncodeAll(s.records, crc)|;
      && AllFramed(s.records) && EncodeAll(s.records, crc) <= data
      && if data[n..] == [] then s.error == None
         else
           var d := Decode(data[n..], crc);
           d.Err? && s.error == if d.error.Truncated? then None else Some(d.error)
    decreases |data|
  {
    hide Decode, Encoding;
    if data != [] && Decode(data, crc).Ok? {
      var (r, n) := Decode(data, crc).value;
      DecodeSound(data, crc);
      ParseSound(data[n..], crc);
      assert data == data[..n] + data[n..];
      var rest := EncodeAll(Parse(data[n..], crc).records, crc);
      assert data[n..][|rest|..] == data[n + |rest|..];
    } else {
      assert data[0..] == data;
    }
  }

  /** Whole records before a damaged frame are read, and then its error is reported; what follows is not looked at. */
  lemma {:induction false} ParseDamaged(rs: seq<WalRecord>, bad: Bytes, e: WalError, crc: Checksum)
    requires AllFramed(rs) && bad != [] && Decode(bad, crc) == Err(e) && !e.Truncated?
    ensures Parse(EncodeAll(rs, crc) + bad, crc) == Stream(rs, Some(e))
    decreases |rs|
  {
    hide Decode, Encoding;
    var data := EncodeAll(rs, crc) + bad;
    if rs == [] {
      assert data == bad;
    } else {
      DecodeEncoding(rs[0], crc, data);
      assert data[|Encoding(rs[0], crc)|..] == EncodeAll(rs[1..], crc) + bad;
      ParseDamaged(rs[1..], bad, e, crc);
    }
  }

  // ---------------------------------------------------------------- what the callback sees

  /** The records beyond a sequence number. */
  function Beyond(rs: seq<WalRecord>, afterSeq: U64): seq<WalRecord> {
    if rs == [] then [] else (if rs[0].seqNo > afterSeq then [rs[0]] else []) + Beyond(rs[1..], afterSeq)
  }

  function Fold<S>(rs: seq<WalRecord>, state: S, f: Callback<S>): S
    decreases |rs|
  {
    if rs == [] then state else Fold(rs[1..], f(state, rs[0]).0, f)
  }

  /** The callback fails at record k, given what it made of the records before. */
  predicate Fails<S>(rs: seq<WalRecord>, state: S, f: Callback<S>, k: nat)
    requires k < |rs|
  {
    f(Fold(rs[..k], state, f), rs[k]).1.Some?
  }

  lemma FoldStep<S>(rs: seq<WalRecord>, state: S, f: Callback<S>, k: nat)
    requires 0 < k < |rs|
    ensures Fold(rs[..k], state, f) == Fold(rs[1..][..k - 1], f(state, rs[0]).0, f)
    ensures Fold(rs[..k + 1], state, f) == Fold(rs[1..][..k], f(state, rs[0]).0, f)
    ensures Fails(rs, state, f, k) <==> Fails(rs[1..], f(state, rs[0]).0, f, k - 1)
  {
    assert rs[..k][1..] == rs[1..][..k - 1];
    assert rs[..k + 1][1..] == rs[1..][..k];
  }

  lemma FoldFirst<S>(rs: seq<WalRecord>, state: S, f: Callback<S>)
    requires rs != []
    ensures Fold(rs[..0], state, f) == state && Fold(rs[..1], state, f) == f(state, rs[0]).0
    ensures Fold(rs, state, f) == Fold(rs[1..], f(state, rs[0]).0, f)
  {
    assert rs[..1][1..] == [];
  }

  lemma ConsumeStep<S>(s: Stream, afterSeq: U64, state: S, last: U64, f: Callback<S>)
    requires s.records != []
    ensures var r, rest := s.records[0], s.(records := s.records[1..]);
      if r.seqNo <= afterSeq then
        && Beyond(s.records, afterSeq) == Beyond(rest.records, afterSeq)
        && Consume(s, afterSeq, state, last, f) == Consume(rest, afterSeq, state, last, f)
      else
        && Beyond(s.records, afterSeq) == [r] + Beyond(rest.records, afterSeq)
        && Beyond(s.records, afterSeq)[1..] == Beyond(rest.records, afterSeq)
        && Consume(s, afterSeq, state, last, f) ==
           var (next, e) := f(state, r);
           if e.Some? then Outcome(next, Err(e.value)) else Consume(rest, afterSeq, next, r.seqNo, f)
  {
    assert [] + Beyond(s.records[1..], afterSeq) == Beyond(s.records[1..], afterSeq);
  }

  /** A callback that first fails at record k ends the replay with its error, in the state it leaves. */
  lemma {:induction false} ConsumeFails<S>(s: Stream, afterSeq: U64, state: S, last: U64, f: Callback<S>, k: nat)
    requires var rs := Beyond(s.records, afterSeq);
      k < |rs| && Fails(rs, state, f, k) && forall j :: 0 <= j < k ==> !Fails(rs, state, f, j)
    ensures var rs := Beyond(s.records, afterSeq);
      Consume(s, afterSeq, state, last, f)
        == Outcome(Fold(rs[..k + 1], state, f), Err(f(Fold(rs[..k], state, f), rs[k]).1.value))
    decreases |s.records|
  {
    hide Fold, Beyond, Consume;
    BeyondNone(afterSeq);
    ConsumeStep(s, afterSeq, state, last, f);
    var r, rest := s.records[0], s.(records := s.records[1..]);
    var rs := Beyond(s.records, afterSeq);
    if r.seqNo <= afterSeq {
      ConsumeFails(rest, afterSeq, state, last, f, k);
    } else {
      FoldFirst(rs, state, f);
      if k > 0 {
        assert !Fails(rs, state, f, 0);
        FoldStep(rs, state, f, k);
        forall j | 0 <= j < k - 1 ensures !Fails(rs[1..], f(state, r).0, f, j) { FoldStep(rs, state, f, j + 1); }
        ConsumeFails(rest, afterSeq, f(state, r).0, r.seqNo, f, k - 1);
      }
    }
  }

  lemma BeyondNone(afterSeq: U64)
    ensures Beyond([], afterSeq) == []
  {
  }

  /** A callback that does not fail sees all records beyond afterSeq; the result is the reader's error, if any. */
  lemma {:induction false} ConsumeEnds<S>(s: Stream, afterSeq: U64, state: S, last: U64, f: Callback<S>)
    requires var rs := Beyond(s.records, afterSeq); forall k :: 0 <= k < |rs| ==> !Fails(rs, state, f, k)
    ensures var rs := Beyond(s.records, afterSeq);
      Consume(s, afterSeq, state, last, f) == Outcome(Fold(rs, state, f),
        if s.error.Some? then Err(s.error.value) else Ok(if rs == [] then last else rs[|rs| - 1].seqNo))
    decreases |s.records|
  {
    hide Beyond;
    BeyondNone(afterSeq);
    if s.records != [] {
      hide Fold, Consume;
      ConsumeStep(s, afterSeq, state, last, f);
      var r, rest := s.records[0], s.(records := s.records[1..]);
      var rs := Beyond(s.records, afterSeq);
      if r.seqNo <= afterSeq {
        ConsumeEnds(rest, afterSeq, state, last, f);
      } else {
        FoldFirst(rs, state, f);
        assert !Fails(rs, state, f, 0);
        forall j | 0 <= j < |rs[1..]| ensures !Fails(rs[1..], f(state, r).0, f, j) { FoldStep(rs, state, f, j + 1); }
        ConsumeEnds(rest, afterSeq, f(state, r).0, r.seqNo, f);
      }
    }
  }

  /** A replay succeeds exactly when the log reads without error and the callback fails at no record beyond afterSeq. */
  lemma ConsumeExactly<S>(s: Stream, afterSeq: U64, state: S, last: U64, f: Callback<S>)
    ensures var rs := Beyond(s.records, afterSeq);
      Consume(s, afterSeq, state, last, f).last.Ok? <==>
        s.error.None? && forall k :: 0 <= k < |rs| ==> !Fails(rs, state, f, k)
  {
    hide Consume, Beyond, Fails;
    var rs := Beyond(s.records, afterSeq);
    if forall k :: 0 <= k < |rs| ==> !Fails(rs, state, f, k) {
      ConsumeEnds(s, afterSeq, state, last, f);
    } else {
      var k: nat :| k < |rs| && Fails(rs, state, f, k);
      var first := FirstFailure(rs, state, f, k);
      ConsumeFails(s, afterSeq, state, last, f, first);
    }
  }

  lemma FirstFailure<S>(rs: seq<WalRecord>, state: S, f: Callback<S>, k: nat) returns (first: nat)
    requires k < |rs| && Fails(rs, state, f, k)
    ensures first < |rs| && Fails(rs, state, f, first) && forall j :: 0 <= j < first ==> !Fails(rs, state, f, j)
  {
    hide Fails;
    first := 0;
    while !Fails(rs, state, f, first)
      invariant first <= k && forall j :: 0 <= j < first ==> !Fails(rs, state, f, j)
      decreases k - first
    {
      first := first + 1;
    }
  }

  /** A callback that never fails is folded over the records beyond afterSeq, in log order. */
  lemma ConsumeFolds<S>(s: Stream, afterSeq: U64, state: S, last: U64, f: Callback<S>)
    requires s.error.None? && forall t, r :: f(t, r).1.None?
    ensures var rs := Beyond(s.records, afterSeq);
      Consume(s, afterSeq, state, last, f)
        == Outcome(Fold(rs, state, f), Ok(if rs == [] then last else rs[|rs| - 1].seqNo))
  {
    ConsumeEnds(s, afterSeq, state, last, f);
  }
}
