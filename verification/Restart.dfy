/**
  Coming back: a snapshot of every symbol with the log beyond it, and what the log of earlier sessions does to an
  engine that starts with empty books and numbers from 1 again.
 */
module Restart {
  import opened Types
  import opened PriceTime
  import opened Spec
  import opened Invariants
  import opened Engine
  import opened Runtime
  import opened Recovery
  import opened BookState
  import Rebuild
  import Scope
  import Snapshot
  import Record
  import Reader
  import Layout

  // ---------------------------------------------------------------- which records lie beyond a number

  ghost predicate DistinctSeqs(cs: seq<Sequenced>) {
    forall i, j :: 0 <= i < j < |cs| ==> cs[i].seqNo != cs[j].seqNo
  }

  /** A sequence number separates two parts of a log. */
  ghost predicate Separates(sq: Record.U64, pre: seq<Sequenced>, post: seq<Sequenced>) {
    (forall c :: c in pre ==> c.seqNo <= sq) && (forall c :: c in post ==> c.seqNo > sq)
  }

  lemma {:induction false} BeyondConcat(rs: seq<Record.WalRecord>, ts: seq<Record.WalRecord>, sq: Record.U64)
    ensures Reader.Beyond(rs + ts, sq) == Reader.Beyond(rs, sq) + Reader.Beyond(ts, sq)
  {
    if rs == [] {
      assert rs + ts == ts;
    } else {
      assert (rs + ts)[1..] == rs[1..] + ts;
      BeyondConcat(rs[1..], ts, sq);
      var first := if rs[0].seqNo > sq then [rs[0]] else [];
      assert first + (Reader.Beyond(rs[1..], sq) + Reader.Beyond(ts, sq))
        == first + Reader.Beyond(rs[1..], sq) + Reader.Beyond(ts, sq);
    }
  }

  lemma {:induction false} BeyondMembers(rs: seq<Record.WalRecord>, sq: Record.U64)
    ensures forall r :: r in Reader.Beyond(rs, sq) <==> r in rs && r.seqNo > sq
    ensures (forall r :: r in rs ==> r.seqNo > sq) ==> Reader.Beyond(rs, sq) == rs
    ensures (forall r :: r in rs ==> r.seqNo <= sq) ==> Reader.Beyond(rs, sq) == []
  {
    if rs != [] {
      BeyondMembers(rs[1..], sq);
      assert rs == [rs[0]] + rs[1..];
    }
  }

  /**
    Replaying the log beyond a snapshot's sequence number redoes exactly the commands after the snapshot, if and only
    if the number separates the two parts of the log.
   */
  lemma TailExactly(pre: seq<Sequenced>, post: seq<Sequenced>, sq: Record.U64, encode: Encoder)
    requires AllNumbered(pre) && AllNumbered(post) && DistinctSeqs(pre + post)
    ensures Reader.Beyond(Records(pre, encode) + Records(post, encode), sq) == Records(post, encode)
      <==> Separates(sq, pre, post)
  {
    hide Reader.Beyond, Records, Separates, DistinctSeqs;
    var rs, ts := Records(pre, encode), Records(post, encode);
    var early, late := Reader.Beyond(rs, sq), Reader.Beyond(ts, sq);
    BeyondConcat(rs, ts, sq);
    if Separates(sq, pre, post) {
      BeyondParts(pre, post, sq, encode);
      assert [] + ts == ts;
    }
    if early + late == ts {
      FirstShared(early, late);
      NoneShared(pre, post, encode);
      BeyondMembers(rs, sq);
      assert early == [];
      assert late == ts;
      PartsSeparate(pre, post, sq, encode);
    }
  }

  lemma PartsSeparate(pre: seq<Sequenced>, post: seq<Sequenced>, sq: Record.U64, encode: Encoder)
    requires AllNumbered(pre) && AllNumbered(post)
    requires Reader.Beyond(Records(pre, encode), sq) == []
    requires Reader.Beyond(Records(post, encode), sq) == Records(post, encode)
    ensures Separates(sq, pre, post)
  {
    hide Reader.Beyond, Records;
    BeyondMembers(Records(pre, encode), sq);
    BeyondMembers(Records(post, encode), sq);
    RecordsMembers(pre, encode);
    RecordsMembers(post, encode);
    forall c | c in pre ensures c.seqNo <= sq {
      assert RecordOf(c, encode) !in Reader.Beyond(Records(pre, encode), sq);
    }
    forall c | c in post ensures c.seqNo > sq {
      assert RecordOf(c, encode) in Reader.Beyond(Records(post, encode), sq);
    }
  }

  lemma RecordsMembers(cs: seq<Sequenced>, encode: Encoder)
    requires AllNumbered(cs)
    ensures forall c :: c in cs ==> Numbered(c) && RecordOf(c, encode) in Records(cs, encode)
    ensures forall r :: r in Records(cs, encode) ==> exists c :: c in cs && Numbered(c) && r == RecordOf(c, encode)
  {
    forall c | c in cs ensures Numbered(c) && RecordOf(c, encode) in Records(cs, encode) {
      var i :| 0 <= i < |cs| && cs[i] == c;
      assert Records(cs, encode)[i] == RecordOf(c, encode);
    }
    forall r | r in Records(cs, encode) ensures exists c :: c in cs && Numbered(c) && r == RecordOf(c, encode) {
      var i :| 0 <= i < |cs| && Records(cs, encode)[i] == r;
      assert cs[i] in cs && r == RecordOf(cs[i], encode);
    }
  }

  lemma FirstShared<T>(early: seq<T>, late: seq<T>)
    ensures early == [] || exists r :: r in early && r in early + late
  {
    if early != [] {
      assert (early + late)[0] == early[0] && early[0] in early && early[0] in early + late;
    }
  }

  /** Distinct sequence numbers mean no record is in both parts. */
  lemma NoneShared(pre: seq<Sequenced>, post: seq<Sequenced>, encode: Encoder)
    requires AllNumbered(pre) && AllNumbered(post) && DistinctSeqs(pre + post)
    ensures forall r :: r in Records(pre, encode) ==> r !in Records(post, encode)
  {
    forall i, j | 0 <= i < |pre| && 0 <= j < |post| ensures Records(pre, encode)[i] != Records(post, encode)[j] {
      assert (pre + post)[i] == pre[i] && (pre + post)[|pre| + j] == post[j];
    }
  }

  /** A cut log holds, beyond the separating number, what survives of the later part. */
  lemma TailSurvives(pre: seq<Sequenced>, post: seq<Sequenced>, n: nat, sq: Record.U64, encode: Encoder)
    returns (k: nat)
    requires AllNumbered(pre + post) && Separates(sq, pre, post) && n <= |pre + post| && AllNumbered((pre + post)[..n])
    ensures k == (if n <= |pre| then 0 else n - |pre|) && k <= |post| && AllNumbered(post[..k])
    ensures Reader.Beyond(Records((pre + post)[..n], encode), sq) == Records(post[..k], encode)
    ensures pre + post[..k] == (pre + post)[..|pre| + k]
  {
    hide Reader.Beyond, Records;
    var cs := pre + post;
    k := if n <= |pre| then 0 else n - |pre|;
    var front := if n <= |pre| then pre[..n] else pre;
    assert cs[..n] == front + post[..k];
    assert forall i :: 0 <= i < |pre| ==> cs[i] == pre[i];
    assert forall i :: 0 <= i < |post| ==> cs[|pre| + i] == post[i];
    RecordsConcat(front, post[..k], encode);
    BeyondConcat(Records(front, encode), Records(post[..k], encode), sq);
    BeyondParts(front, post[..k], sq, encode);
    assert [] + Records(post[..k], encode) == Records(post[..k], encode);
  }

  lemma BeyondParts(front: seq<Sequenced>, back: seq<Sequenced>, sq: Record.U64, encode: Encoder)
    requires AllNumbered(front) && AllNumbered(back) && Separates(sq, front, back)
    ensures Reader.Beyond(Records(front, encode), sq) == []
    ensures Reader.Beyond(Records(back, encode), sq) == Records(back, encode)
  {
    hide Reader.Beyond, Records;
    RecordsMembers(front, encode);
    RecordsMembers(back, encode);
    BeyondMembers(Records(front, encode), sq);
    BeyondMembers(Records(back, encode), sq);
  }

  // ---------------------------------------------------------------- snapshots and the log beyond them

  /** What a snapshot keeps of one symbol: its orders in the order they were listed, and the last price. */
  datatype Saved = Saved(orders: seq<Order>, last: Option<Price>)

  /** One snapshot for every symbol, each of a book without stops and listed in time order. */
  ghost predicate Faithful(saved: map<SymbolId, Saved>, books: Books) {
    saved.Keys == books.Keys && forall s :: s in books ==> FaithfulOne(saved[s], books[s])
  }

  ghost predicate FaithfulOne(saved: Saved, b: Book) {
    && Inv(b) && Pending(b) == 0 && saved.last == b.lastTrade
    && Rebuild.Enumerates(saved.orders, b) && Rebuild.KeepsTime(saved.orders, b)
  }

  /** The books loaded from the snapshots. */
  ghost function Loaded(saved: map<SymbolId, Saved>): Books {
    map s | s in saved :: Rebuild.Rebuilt(saved[s].orders, saved[s].last)
  }

  lemma LoadedFaithful(saved: map<SymbolId, Saved>, books: Books)
    requires Faithful(saved, books)
    ensures Loaded(saved) == books
  {
    hide FaithfulOne, Rebuild.Rebuilt;
    forall s | s in books ensures Rebuild.Rebuilt(saved[s].orders, saved[s].last) == books[s] {
      LoadedOne(saved[s], books[s]);
    }
  }

  lemma LoadedOne(saved: Saved, b: Book)
    requires FaithfulOne(saved, b)
    ensures Rebuild.Rebuilt(saved.orders, saved.last) == b
  {
    hide Inv, Pending, Rebuild.Enumerates, Rebuild.KeepsTime, Rebuild.Rebuilt;
    Rebuild.RebuiltExactly(saved.orders, b);
  }

  /** Replay of the records beyond a number into given books. */
  ghost function ReplayBeyond(
    files: seq<Record.Bytes>, sq: Record.U64, books: Books, decode: Decoder, crc: Record.Checksum)
    : Reader.Outcome<ShardOutcome>
  {
    Reader.Consume(Reader.ReadAll(files, crc), sq, ShardOutcome(books, []), sq, Redoer(decode))
  }

  function Larger(a: nat, b: nat): nat {
    if b <= a then a else b
  }

  /**
    Recovery from snapshots and the log. With snapshots in time order, and a number that separates the log where they
    were taken, replaying what a cut has left of the log beyond that number takes the loaded books, and the events,
    where the whole run took them up to the cut, or up to the snapshots if the cut fell before.
   */
  lemma SnapshotRecovers(start: Books, pre: seq<Sequenced>, e: Epoch, saved: map<SymbolId, Saved>, sq: Record.U64,
                         encode: Encoder, decode: Decoder, crc: Record.Checksum) returns (m: nat)
    requires Lossless(encode, decode) && Loggable(e.cmds, encode) && pre <= e.cmds
    requires Separates(sq, pre, e.cmds[|pre|..]) && Faithful(saved, ShardRun(start, pre).books)
    ensures m == Larger(|pre|, |Left(e, encode, crc)|) && m <= |e.cmds|
    ensures var out := ReplayBeyond(Layout.AllFiles([SessionOf(e, encode)], crc), sq, Loaded(saved), decode, crc);
      var run := ShardRun(start, e.cmds[..m]);
      out.last.Ok? && out.state.books == run.books && run.events == ShardRun(start, pre).events + out.state.events
  {
    hide *;
    var post := e.cmds[|pre|..];
    assert pre + post == e.cmds;
    NumberedOf(e.cmds, encode);
    var n := LeftStream(e, encode, crc);
    var k := TailSurvives(pre, post, n, sq, encode);
    m := |pre| + k;
    LargerIs(|pre|, n);
    LoadedFaithful(saved, ShardRun(start, pre).books);
    TailReplay(Layout.AllFiles([SessionOf(e, encode)], crc), sq, Loaded(saved), post[..k], encode, decode, crc);
    ShardRunConcat(start, pre, post[..k]);
  }

  lemma LargerIs(a: nat, b: nat)
    ensures Larger(a, b) == if b <= a then a else b
  {
  }

  lemma LeftStream(e: Epoch, encode: Encoder, crc: Record.Checksum) returns (n: nat)
    requires Loggable(e.cmds, encode)
    ensures n == |Left(e, encode, crc)| && n <= |e.cmds| && AllNumbered(e.cmds[..n])
    ensures Reader.ReadAll(Layout.AllFiles([SessionOf(e, encode)], crc), crc)
         == Reader.Stream(Records(e.cmds[..n], encode), None)
  {
    hide Reader.ReadAll, Layout.AllFiles, Layout.Survivors, Records;
    n := CutStream(e.cmds, e.kept, encode, crc);
    LeftIs(e, encode, crc);
  }

  lemma TailReplay(files: seq<Record.Bytes>, sq: Record.U64, books: Books, cs: seq<Sequenced>, encode: Encoder,
                   decode: Decoder, crc: Record.Checksum)
    requires Lossless(encode, decode) && AllNumbered(cs) && Reader.ReadAll(files, crc).error.None?
    requires Reader.Beyond(Reader.ReadAll(files, crc).records, sq) == Records(cs, encode)
    ensures var out := ReplayBeyond(files, sq, books, decode, crc); out.last.Ok? && out.state == ShardRun(books, cs)
  {
    hide Reader.ReadAll, Reader.Consume, Reader.Fold, Reader.Beyond, ShardRun, Redo;
    Reader.ConsumeFolds(Reader.ReadAll(files, crc), sq, ShardOutcome(books, []), sq, Redoer(decode));
    RedoRuns(ShardOutcome(books, []), cs, encode, decode);
    assert [] + ShardRun(books, cs).events == ShardRun(books, cs).events;
  }

  // ---------------------------------------------------------------- the same on linked books

  ghost function SavedOf(snaps: map<SymbolId, Snapshot.Snap>): map<SymbolId, Saved> {
    map s | s in snaps :: Saved(Snapshot.OrdersOf(snaps[s]), snaps[s].lastTrade)
  }

  ghost predicate AllLoadable(snaps: map<SymbolId, Snapshot.Snap>) {
    forall s :: s in snaps ==> Snapshot.Loadable(Snapshot.OrdersOf(snaps[s]))
  }

  /** The books of the symbols that are no longer in left. */
  ghost function LoadedBut(snaps: map<SymbolId, Snapshot.Snap>, left: set<SymbolId>): Books {
    Loaded(SavedOf(snaps)) - left
  }

  method LoadAll(snaps: map<SymbolId, Snapshot.Snap>) returns (books: map<SymbolId, OrderBook>)
    requires AllLoadable(snaps)
    ensures BooksOk(books) && Views(books) == Loaded(SavedOf(snaps)) && fresh(books.Values)
  {
    hide *;
    books := map[];
    var left := snaps.Keys;
    NoBooks();
    LoadEnds(snaps, left);
    while left != {}
      invariant left <= snaps.Keys
      invariant fresh(books.Values) && BooksOk(books) && Views(books) == LoadedBut(snaps, left)
      decreases |left|
    {
      var s :| s in left;
      LoadNext(snaps, left, s);
      Snapshot.LimitsOnly(Snapshot.OrdersOf(snaps[s]));
      var b, last := Snapshot.LoadSnapshot(snaps[s]);
      AddBook(books, s, b);
      books := books[s := b];
      left := left - {s};
    }
    LoadEnds(snaps, left);
  }

  lemma LoadEnds(snaps: map<SymbolId, Snapshot.Snap>, left: set<SymbolId>)
    ensures left == snaps.Keys ==> LoadedBut(snaps, left) == map[]
    ensures left == {} ==> LoadedBut(snaps, left) == Loaded(SavedOf(snaps))
  {
    hide Rebuild.Rebuilt;
    assert Loaded(SavedOf(snaps)).Keys == snaps.Keys;
  }

  lemma LoadNext(snaps: map<SymbolId, Snapshot.Snap>, left: set<SymbolId>, s: SymbolId)
    requires s in left && s in snaps && AllLoadable(snaps)
    ensures Snapshot.Loadable(Snapshot.OrdersOf(snaps[s]))
    ensures LoadedBut(snaps, left - {s})
         == LoadedBut(snaps, left)[s := Rebuild.Rebuilt(Snapshot.OrdersOf(snaps[s]), snaps[s].lastTrade)]
  {
    hide Rebuild.Rebuilt, Snapshot.Loadable, Snapshot.OrdersOf;
  }

  /**
    Load a snapshot of every symbol, replay the log beyond their number: the linked books are those of the whole
    run.
   */
  method RecoverShard(snaps: map<SymbolId, Snapshot.Snap>, files: seq<Record.Bytes>, sq: Record.U64, decode: Decoder,
                      crc: Record.Checksum, ghost start: Books, ghost pre: seq<Sequenced>, ghost e: Epoch,
                      ghost encode: Encoder)
      returns (books: map<SymbolId, OrderBook>, events: seq<OutputEvent>, ghost m: nat)
    requires Lossless(encode, decode) && Loggable(e.cmds, encode) && pre <= e.cmds && AllInScope(start, e.cmds)
    requires files == Layout.AllFiles([SessionOf(e, encode)], crc)
    requires Separates(sq, pre, e.cmds[|pre|..])
    requires AllLoadable(snaps) && Faithful(SavedOf(snaps), ShardRun(start, pre).books)
    ensures m == Larger(|pre|, |Left(e, encode, crc)|) && m <= |e.cmds|
    ensures BooksOk(books) && Views(books) == ShardRun(start, e.cmds[..m]).books
    ensures ShardRun(start, e.cmds[..m]).events == ShardRun(start, pre).events + events
  {
    hide *;
    ghost var post := e.cmds[|pre|..];
    assert pre + post == e.cmds;
    NumberedOf(e.cmds, encode);
    ghost var n := LeftStream(e, encode, crc);
    ghost var k := TailSurvives(pre, post, n, sq, encode);
    m := |pre| + k;
    LargerIs(|pre|, n);
    books := LoadAll(snaps);
    LoadedFaithful(SavedOf(snaps), ShardRun(start, pre).books);
    var out := Reader.Replay(files, sq, [], Layout.Collector(), crc);
    CollectBeyond(files, sq, crc);
    assert pre + post[..k] + post[k..] == e.cmds;
    ScopeBetween(start, pre, post[..k], post[k..]);
    events := RedoAll(books, out.state, post[..k], encode, decode);
    ShardRunConcat(start, pre, post[..k]);
  }

  lemma CollectBeyond(files: seq<Record.Bytes>, sq: Record.U64, crc: Record.Checksum)
    requires Reader.ReadAll(files, crc).error.None?
    ensures Reader.Consume(Reader.ReadAll(files, crc), sq, [], sq, Layout.Collector()).state
         == Reader.Beyond(Reader.ReadAll(files, crc).records, sq)
  {
    hide Reader.ReadAll, Reader.Consume, Reader.Fold, Reader.Beyond;
    Reader.ConsumeFolds(Reader.ReadAll(files, crc), sq, [], sq, Layout.Collector());
    var due := Reader.Beyond(Reader.ReadAll(files, crc).records, sq);
    Layout.CollectorKeeps(due, []);
    assert [] + due == due;
  }

  /** A run in scope is in scope between any two of its states. */
  lemma ScopeBetween(start: Books, pre: seq<Sequenced>, mid: seq<Sequenced>, post: seq<Sequenced>)
    requires AllInScope(start, pre + mid + post)
    ensures AllInScope(ShardRun(start, pre).books, mid)
  {
    hide Run;
    BooksFixed(start, pre);
    forall s | s in start ensures Scope.RunInScope(ShardRun(start, pre).books[s], For(mid, s)) {
      ForConcat(pre + mid, post, s);
      ForConcat(pre, mid, s);
      Scope.ScopePrefix(start[s], For(pre, s) + For(mid, s), For(post, s));
      Scope.ScopeSuffix(start[s], For(pre, s), For(mid, s));
      ShardRunSplits(start, pre, s);
    }
  }

  // ---------------------------------------------------------------- restarts without snapshots

  /** No command that an earlier session left in the log is one of the later session. */
  ghost predicate Apart(es: seq<Epoch>, e: Epoch, encode: Encoder, crc: Record.Checksum)
    requires AllLoggable(es, encode)
  {
    forall c :: c in AllLeft(es, encode, crc) ==> c !in e.cmds
  }

  /**
    The engine starts every session with empty books, while the log keeps the earlier sessions. What a replay redoes is
    what the running session has applied if and only if no earlier record survives and none of this session is lost.
   */
  lemma RestartExactly(es: seq<Epoch>, e: Epoch, encode: Encoder, crc: Record.Checksum)
    requires AllLoggable(es, encode) && Loggable(e.cmds, encode) && Apart(es, e, encode, crc)
    ensures AllLoggable(es + [e], encode)
    ensures AllLeft(es + [e], encode, crc) == e.cmds
      <==> AllLeft(es, encode, crc) == [] && Left(e, encode, crc) == e.cmds
  {
    hide AllLeft, Left, Loggable;
    var early, late := AllLeft(es, encode, crc), Left(e, encode, crc);
    AllLeftPush(es, e, encode, crc);
    assert [] + late == late;
    if early + late == e.cmds {
      FirstShared(early, late);
    }
  }

  /** One resting order, a restart, nothing since: the replay finds the order, the running engine has an empty book. */
  lemma RestartDiffers(c: Sequenced, no: NewOrder)
    requires c.cmd == New(no) && no.kind.Limit? && no.qty > 0 && no.price > 0
    ensures var start: Books := map[no.symbol := EMPTY];
      ShardRun(start, [c]).books != ShardRun(start, []).books
  {
    hide SubmitNew;
    var start: Books := map[no.symbol := EMPTY];
    ShardRunOne(start, c);
    RestsAlone(no, c.seqNo, c.ts);
    assert ApplyOne(start, c).books[no.symbol] == SubmitNew(EMPTY, no, c.seqNo, c.ts).book;
  }

  lemma RestsAlone(no: NewOrder, sq: nat, ts: nat)
    requires no.kind.Limit? && no.qty > 0 && no.price > 0
    ensures SubmitNew(EMPTY, no, sq, ts).book != EMPTY
  {
    MatchOver(OrderOf(no, sq, ts), [], None, sq, ts);
  }
}
