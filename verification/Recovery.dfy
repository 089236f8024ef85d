/**
  Recovery: replaying a shard's log into fresh books. A crash that cuts the log at any byte leaves the books and the
  trade tape of a prefix of the run; a snapshot with the rest of the log continues the run under exact conditions.
 */
module Recovery {
  import opened Types
  import opened Spec
  import opened Invariants
  import opened Priority
  import opened Engine
  import opened Runtime
  import opened BookState
  import Rebuild
  import Scope
  import Record
  import Reader
  import Layout
  import Writer

  type Decoder = Record.Bytes -> Option<Sequenced>

  /** The payload format loses nothing. */
  ghost predicate Lossless(encode: Encoder, decode: Decoder) {
    forall c :: decode(encode(c)) == Some(c)
  }

  /** Every command has a positive number and a payload whose length can be written in a record. */
  ghost predicate Loggable(cs: seq<Sequenced>, encode: Encoder) {
    AllNumbered(cs) && forall i :: 0 <= i < |cs| ==> cs[i].seqNo > 0 && |encode(cs[i])| + Record.FIXED < 0x1_0000_0000
  }

  /** What the replay does with one record: decode the command and apply it to the book of its symbol. */
  function Redo(st: ShardOutcome, rec: Record.WalRecord, decode: Decoder): ShardOutcome {
    match decode(rec.payload)
    case None => st
    case Some(c) =>
      var o := ApplyOne(st.books, c);
      ShardOutcome(o.books, st.events + o.events)
  }

  function Redoer(decode: Decoder): Reader.Callback<ShardOutcome> {
    (st: ShardOutcome, rec: Record.WalRecord) => (Redo(st, rec, decode), None)
  }

  /** Redoing logged commands is running them. */
  lemma {:induction false} RedoRuns(st: ShardOutcome, cs: seq<Sequenced>, encode: Encoder, decode: Decoder)
    requires Lossless(encode, decode) && AllNumbered(cs)
    ensures var o := ShardRun(st.books, cs);
      Reader.Fold(Records(cs, encode), st, Redoer(decode)) == ShardOutcome(o.books, st.events + o.events)
    decreases |cs|
  {
    hide ApplyOne;
    if cs != [] {
      var rs := Records(cs, encode);
      var first := ApplyOne(st.books, cs[0]);
      assert rs[1..] == Records(cs[1..], encode);
      assert Redo(st, rs[0], decode) == ShardOutcome(first.books, st.events + first.events);
      RedoRuns(ShardOutcome(first.books, st.events + first.events), cs[1..], encode, decode);
      var rest := ShardRun(first.books, cs[1..]);
      assert st.events + first.events + rest.events == st.events + (first.events + rest.events);
    }
  }

  lemma {:induction false} BeyondZero(rs: seq<Record.WalRecord>)
    requires forall i :: 0 <= i < |rs| ==> rs[i].seqNo > 0
    ensures Reader.Beyond(rs, 0) == rs
  {
    if rs != [] { BeyondZero(rs[1..]); }
  }

  lemma RecordsTake(cs: seq<Sequenced>, n: nat, encode: Encoder)
    requires AllNumbered(cs) && n <= |cs|
    ensures AllNumbered(cs[..n]) && Records(cs[..n], encode) == Records(cs, encode)[..n]
  {
  }

  lemma RecordsFramed(cs: seq<Sequenced>, encode: Encoder)
    requires Loggable(cs, encode)
    ensures Reader.AllFramed(Records(cs, encode)) && forall i :: 0 <= i < |cs| ==> Records(cs, encode)[i].seqNo > 0
  {
  }

  /** A log stream of whole commands replays to the run of those commands. */
  lemma StreamReplay(s: Reader.Stream, start: Books, cs: seq<Sequenced>, encode: Encoder, decode: Decoder)
    requires Lossless(encode, decode) && Loggable(cs, encode) && s == Reader.Stream(Records(cs, encode), None)
    ensures Reader.Consume(s, 0, ShardOutcome(start, []), 0, Redoer(decode))
         == Reader.Outcome(ShardRun(start, cs), Record.Ok(if cs == [] then 0 else cs[|cs| - 1].seqNo))
  {
    hide Reader.Consume, Reader.Fold, Reader.Beyond, ShardRun, Redo;
    RecordsFramed(cs, encode);
    BeyondZero(Records(cs, encode));
    Reader.ConsumeFolds(s, 0, ShardOutcome(start, []), 0, Redoer(decode));
    RedoRuns(ShardOutcome(start, []), cs, encode, decode);
    assert [] + ShardRun(start, cs).events == ShardRun(start, cs).events;
  }

  lemma {:induction false} TradesPrefix(es: seq<OutputEvent>, fs: seq<OutputEvent>)
    requires es <= fs
    ensures Trades(es) <= Trades(fs)
  {
    assert fs == es + fs[|es|..];
    VolumeConcat(es, fs[|es|..]);
  }

  lemma RunPrefix(start: Books, cs: seq<Sequenced>, n: nat)
    requires n <= |cs|
    ensures ShardRun(start, cs[..n]).events <= ShardRun(start, cs).events
  {
    hide ShardRun;
    ShardRunConcat(start, cs[..n], cs[n..]);
    assert cs[..n] + cs[n..] == cs;
  }

  /**
    One session whose log is cut at any byte of its last segment: replay ends without error in the state of the first
    n commands, n being the number of surviving records, and its events and trades are prefixes of the live ones.
   */
  lemma CutReplay(start: Books, cs: seq<Sequenced>, kept: nat, encode: Encoder, decode: Decoder, crc: Record.Checksum)
    requires Lossless(encode, decode) && Loggable(cs, encode)
    ensures var session := Layout.Session(Records(cs, encode), kept);
      var n := |Layout.Survivors(session, crc)|;
      var out := Reader.Consume(Reader.ReadAll(Layout.AllFiles([session], crc), crc), 0, ShardOutcome(start, []), 0,
        Redoer(decode));
      && n <= |cs|
      && out == Reader.Outcome(ShardRun(start, cs[..n]), Record.Ok(if n == 0 then 0 else cs[n - 1].seqNo))
      && out.state.events <= ShardRun(start, cs).events
      && Trades(out.state.events) <= Trades(ShardRun(start, cs).events)
  {
    hide Reader.Consume, Reader.ReadAll, Layout.Survivors, Layout.AllFiles, ShardRun, Records, Lossless;
    var n := CutStream(cs, kept, encode, crc);
    StreamReplay(Reader.Stream(Records(cs[..n], encode), None), start, cs[..n], encode, decode);
    RunPrefix(start, cs, n);
    TradesPrefix(ShardRun(start, cs[..n]).events, ShardRun(start, cs).events);
  }

  lemma CutStream(cs: seq<Sequenced>, kept: nat, encode: Encoder, crc: Record.Checksum) returns (n: nat)
    requires Loggable(cs, encode)
    ensures var session := Layout.Session(Records(cs, encode), kept);
      && n == |Layout.Survivors(session, crc)| && n <= |cs| && Loggable(cs[..n], encode)
      && Reader.ReadAll(Layout.AllFiles([session], crc), crc) == Reader.Stream(Records(cs[..n], encode), None)
  {
    hide Reader.ReadAll, Layout.Survivors, Layout.AllFiles, Records;
    var session := Layout.Session(Records(cs, encode), kept);
    n := |Layout.Survivors(session, crc)|;
    RecordsFramed(cs, encode);
    Layout.SurvivorsPrefix(session, crc);
    Layout.HistoryReplay([session], crc);
    OneSession(session, crc);
    RecordsTake(cs, n, encode);
  }

  lemma OneSession(s: Layout.Session, crc: Record.Checksum)
    ensures Layout.AllSurvivors([s], crc) == Layout.Survivors(s, crc)
  {
    hide Layout.Survivors;
    assert Layout.Front([s]) == [] && Layout.Last([s]) == s;
    assert Layout.AllSurvivors(Layout.Front([s]), crc) == Layout.AllSurvivors([], crc) == [];
    assert [] + Layout.Survivors(s, crc) == Layout.Survivors(s, crc);
  }

  // ---------------------------------------------------------------- replay into linked books

  /** Decode logged commands and apply each to the linked book of its symbol. */
  method RedoAll(books: map<SymbolId, OrderBook>, rs: seq<Record.WalRecord>, ghost cs: seq<Sequenced>,
                 ghost encode: Encoder, decode: Decoder) returns (events: seq<OutputEvent>)
    requires BooksOk(books) && AllInScope(Views(books), cs)
    requires Lossless(encode, decode) && AllNumbered(cs) && rs == Records(cs, encode)
    modifies books.Values
    ensures BooksOk(books) && ShardOutcome(Views(books), events) == ShardRun(old(Views(books)), cs)
  {
    hide *;
    ghost var start := Views(books);
    events := [];
    ghost var done: seq<Sequenced> := [];
    NothingRun(start, encode);
    for i := 0 to |rs|
      invariant BooksOk(books) && done == cs[..i] && |cs| == |rs|
      invariant ShardOutcome(Views(books), events) == ShardRun(start, done)
    {
      RecordAt(rs, cs, i, encode, decode);
      var c := decode(rs[i].payload).value;
      assert done + [c] + cs[i + 1..] == cs && cs[..i + 1] == done + [c];
      ScopeNext(start, done, c, cs[i + 1..]);
      var evs := ApplyTo(books, c);
      ShardRunConcat(start, done, [c]);
      ShardRunOne(ShardRun(start, done).books, c);
      events := events + evs;
      done := done + [c];
    }
    assert cs[..|rs|] == cs;
  }

  lemma RecordAt(rs: seq<Record.WalRecord>, cs: seq<Sequenced>, i: nat, encode: Encoder, decode: Decoder)
    requires Lossless(encode, decode) && AllNumbered(cs) && rs == Records(cs, encode) && i < |rs|
    ensures |cs| == |rs| && decode(rs[i].payload) == Some(cs[i])
  {
  }

  /**
    The crash experiment, for every run, every cut and every flush policy: run a shard on a fresh log, cut the
    last segment at any byte, replay into fresh linked books. The recovered books and events are those of a prefix of
    the commands; with nothing cut, of all of them.
   */
  method CrashAndReplay(symbols: seq<(SymbolId, Price)>, ring: Ring, fsync: Writer.FsyncPolicy, cut: nat,
                        encode: Encoder, decode: Decoder, crc: Record.Checksum)
      returns (live: seq<OutputEvent>, recovered: map<SymbolId, OrderBook>, tape: seq<OutputEvent>, ghost n: nat)
    requires Writer.Sane(fsync) && Lossless(encode, decode) && Loggable(ring.items, encode)
    requires AllInScope(EmptyBooks(symbols), ring.items)
    modifies ring
    ensures live == ShardRun(EmptyBooks(symbols), old(ring.items)).events
    ensures n <= |old(ring.items)| && BooksOk(recovered)
    ensures ShardOutcome(Views(recovered), tape) == ShardRun(EmptyBooks(symbols), old(ring.items)[..n])
    ensures tape <= live && Trades(tape) <= Trades(live)
    ensures cut == 0 ==> n == |old(ring.items)|
  {
    hide *;
    var disk := new Writer.Disk();
    EmptyDisk();
    var wal := new Writer.WalWriter(disk, fsync, crc);
    ghost var cs, start := ring.items, EmptyBooks(symbols);
    var books;
    NumberedOf(cs, encode);
    books, live := RunShard(symbols, ring, wal, encode);
    assert [] + Records(cs, encode) == Records(cs, encode);
    var left := CutLog(wal, cut);
    FirstFiles(Layout.Session(Records(cs, encode), left), crc);
    var out := Reader.Replay(Writer.Listing(disk.files), 0, [], Layout.Collector(), crc);
    n := CutStream(cs, left, encode, crc);
    CollectAll(cs[..n], encode, crc, Writer.Listing(disk.files));
    NumberedOf(cs[..n], encode);
    recovered := OpenBooks(symbols);
    assert cs[..n] + cs[n..] == cs;
    PrefixInScope(start, cs[..n], cs[n..]);
    tape := RedoAll(recovered, out.state, cs[..n], encode, decode);
    RunPrefix(start, cs, n);
    TradesPrefix(tape, live);
  }

  lemma FirstFiles(s: Layout.Session, crc: Record.Checksum)
    ensures [] + Layout.SessionFiles(s, crc) == Layout.AllFiles([s], crc)
  {
    hide Layout.SessionFiles;
    Layout.FilesPush([], s, crc);
    assert [] + [s] == [s];
  }

  lemma PrefixInScope(start: Books, cs: seq<Sequenced>, ds: seq<Sequenced>)
    requires AllInScope(start, cs + ds)
    ensures AllInScope(start, cs)
  {
    forall s | s in start ensures Scope.RunInScope(start[s], For(cs, s)) {
      ForConcat(cs, ds, s);
      Scope.ScopePrefix(start[s], For(cs, s), For(ds, s));
    }
  }

  /** Collecting a whole log gives its records. */
  lemma CollectAll(cs: seq<Sequenced>, encode: Encoder, crc: Record.Checksum, segments: seq<Record.Bytes>)
    requires Loggable(cs, encode) && Reader.ReadAll(segments, crc) == Reader.Stream(Records(cs, encode), None)
    ensures Reader.Consume(Reader.ReadAll(segments, crc), 0, [], 0, Layout.Collector()).state == Records(cs, encode)
  {
    hide Reader.ReadAll, Reader.Consume, Reader.Fold, Reader.Beyond, Records;
    RecordsFramed(cs, encode);
    BeyondZero(Records(cs, encode));
    Reader.ConsumeFolds(Reader.ReadAll(segments, crc), 0, [], 0, Layout.Collector());
    Layout.CollectorKeeps(Records(cs, encode), []);
    assert [] + Records(cs, encode) == Records(cs, encode);
  }

  /** Truncate the last segment by cut bytes. */
  method CutLog(wal: Writer.WalWriter, cut: nat) returns (left: nat)
    requires wal.Valid()
    modifies wal.disk
    ensures Writer.Listing(wal.disk.files)
      == wal.past + Layout.SessionFiles(Layout.Session(wal.appended, left), wal.crc)
    ensures cut == 0 ==> Layout.Session(wal.appended, left) == old(wal.This())
  {
    hide Writer.Listing, Layout.AllFiles, Layout.Survivors, Layout.Segments, Reader.EncodeAll;
    var data := wal.disk.files[wal.segIdx];
    left := if cut <= |data| then |data| - cut else 0;
    wal.Crash(left);
    wal.disk.files := wal.disk.files[wal.segIdx := data[..left]];
  }

  lemma EmptyDisk()
    ensures Writer.Listing(map[]) == []
  {
  }

  lemma NumberedOf(cs: seq<Sequenced>, encode: Encoder)
    requires Loggable(cs, encode)
    ensures AllNumbered(cs)
  {
  }

  // ---------------------------------------------------------------- many sessions

  /** What one session logged, and how much of its last segment is left. */
  datatype Epoch = Epoch(cmds: seq<Sequenced>, kept: nat)

  ghost predicate AllLoggable(es: seq<Epoch>, encode: Encoder) {
    forall i :: 0 <= i < |es| ==> Loggable(es[i].cmds, encode)
  }

  ghost function SessionOf(e: Epoch, encode: Encoder): Layout.Session
    requires Loggable(e.cmds, encode)
  {
    Layout.Session(Records(e.cmds, encode), e.kept)
  }

  ghost function Sessions(es: seq<Epoch>, encode: Encoder): (h: seq<Layout.Session>)
    requires AllLoggable(es, encode)
    ensures |h| == |es|
  {
    seq(|es|, i requires 0 <= i < |es| => SessionOf(es[i], encode))
  }

  /** The commands whose records survive. */
  ghost function Left(e: Epoch, encode: Encoder, crc: Record.Checksum): (cs: seq<Sequenced>)
    requires Loggable(e.cmds, encode)
    ensures cs <= e.cmds
  {
    Layout.SurvivorsPrefix(SessionOf(e, encode), crc);
    e.cmds[..|Layout.Survivors(SessionOf(e, encode), crc)|]
  }

  ghost function AllLeft(es: seq<Epoch>, encode: Encoder, crc: Record.Checksum): seq<Sequenced>
    requires AllLoggable(es, encode)
  {
    if es == [] then [] else AllLeft(es[..|es| - 1], encode, crc) + Left(es[|es| - 1], encode, crc)
  }

  lemma RecordsConcat(cs: seq<Sequenced>, ds: seq<Sequenced>, encode: Encoder)
    requires AllNumbered(cs) && AllNumbered(ds)
    ensures AllNumbered(cs + ds) && Records(cs + ds, encode) == Records(cs, encode) + Records(ds, encode)
    ensures Loggable(cs, encode) && Loggable(ds, encode) ==> Loggable(cs + ds, encode)
  {
  }

  lemma LeftRecords(e: Epoch, encode: Encoder, crc: Record.Checksum)
    requires Loggable(e.cmds, encode)
    ensures Loggable(Left(e, encode, crc), encode)
    ensures Records(Left(e, encode, crc), encode) == Layout.Survivors(SessionOf(e, encode), crc)
  {
    hide Layout.Survivors;
    Layout.SurvivorsPrefix(SessionOf(e, encode), crc);
    RecordsTake(e.cmds, |Layout.Survivors(SessionOf(e, encode), crc)|, encode);
  }

  lemma {:induction false} AllLeftRecords(es: seq<Epoch>, encode: Encoder, crc: Record.Checksum)
    requires AllLoggable(es, encode)
    ensures Loggable(AllLeft(es, encode, crc), encode)
    ensures Records(AllLeft(es, encode, crc), encode) == Layout.AllSurvivors(Sessions(es, encode), crc)
    decreases |es|
  {
    hide Layout.Survivors, Records, Loggable, Left;
    NothingLogged(encode);
    if es != [] {
      var front, e := es[..|es| - 1], es[|es| - 1];
      AllLeftRecords(front, encode, crc);
      LeftRecords(e, encode, crc);
      NumberedOf(AllLeft(front, encode, crc), encode);
      NumberedOf(Left(e, encode, crc), encode);
      RecordsConcat(AllLeft(front, encode, crc), Left(e, encode, crc), encode);
      assert Layout.Front(Sessions(es, encode)) == Sessions(front, encode);
      assert Layout.Last(Sessions(es, encode)) == SessionOf(e, encode);
    }
  }

  lemma NothingLogged(encode: Encoder)
    ensures Loggable([], encode) && Records([], encode) == []
  {
  }

  /** Any number of sessions, each torn: replay is the run over the surviving prefix of each, one after the other. */
  lemma HistoryRecovers(start: Books, es: seq<Epoch>, encode: Encoder, decode: Decoder, crc: Record.Checksum)
    requires Lossless(encode, decode) && AllLoggable(es, encode)
    ensures var out := Reader.Consume(Reader.ReadAll(Layout.AllFiles(Sessions(es, encode), crc), crc), 0,
      ShardOutcome(start, []), 0, Redoer(decode));
      out.state == ShardRun(start, AllLeft(es, encode, crc)) && out.last.Ok?
  {
    hide Reader.Consume, Reader.ReadAll, Layout.AllFiles, ShardRun, Records, Lossless, AllLeft, Layout.AllSurvivors;
    AllLeftRecords(es, encode, crc);
    forall i | 0 <= i < |es| ensures Reader.AllFramed(Sessions(es, encode)[i].appended) {
      RecordsFramed(es[i].cmds, encode);
    }
    Layout.HistoryReplay(Sessions(es, encode), crc);
    StreamReplay(Reader.Stream(Records(AllLeft(es, encode, crc), encode), None), start, AllLeft(es, encode, crc),
      encode, decode);
  }

  lemma AllLeftPush(es: seq<Epoch>, e: Epoch, encode: Encoder, crc: Record.Checksum)
    requires AllLoggable(es, encode) && Loggable(e.cmds, encode)
    ensures AllLoggable(es + [e], encode)
    ensures AllLeft(es + [e], encode, crc) == AllLeft(es, encode, crc) + Left(e, encode, crc)
    ensures Sessions(es + [e], encode) == Sessions(es, encode) + [SessionOf(e, encode)]
  {
    hide Loggable, Left, SessionOf;
    assert (es + [e])[..|es|] == es;
  }

  /**
    A process that dies between two commands loses what is in the buffer: nothing with a flush per record, fewer
    than k records with a flush every k. Earlier sessions and what is left of this one replay one after the other.
   */
  lemma ProcessCrash(
    wal: Writer.WalWriter, start: Books, es: seq<Epoch>, cs: seq<Sequenced>, encode: Encoder, decode: Decoder)
      returns (n: nat)
    requires wal.Valid() && Lossless(encode, decode) && AllLoggable(es, encode) && Loggable(cs, encode)
    requires wal.past == Layout.AllFiles(Sessions(es, encode), wal.crc) && wal.appended == Records(cs, encode)
    ensures Writer.Safe(wal.fsync, |cs|) <= n <= |cs|
    ensures var out := Reader.Consume(
        Reader.ReadAll(Writer.Listing(wal.disk.files), wal.crc), 0, ShardOutcome(start, []), 0, Redoer(decode));
      out.state == ShardRun(start, AllLeft(es, encode, wal.crc) + cs[..n]) && out.last.Ok?
  {
    hide *;
    var e := Epoch(cs, |wal.OnDisk()|);
    CrashFiles(wal);
    SessionIs(e, wal, encode);
    n := |Left(e, encode, wal.crc)|;
    LeftIs(e, encode, wal.crc);
    AllLeftPush(es, e, encode, wal.crc);
    Layout.FilesPush(Sessions(es, encode), SessionOf(e, encode), wal.crc);
    HistoryRecovers(start, es + [e], encode, decode, wal.crc);
  }

  lemma CrashFiles(wal: Writer.WalWriter)
    requires wal.Valid()
    ensures Writer.Listing(wal.disk.files) == wal.past + Layout.SessionFiles(wal.This(), wal.crc)
    ensures |Layout.Survivors(wal.This(), wal.crc)| >= Writer.Safe(wal.fsync, |wal.appended|)
  {
    hide Writer.Listing, Layout.Survivors, Layout.SessionFiles, Writer.Safe;
    var data := wal.OnDisk();
    assert data[..|data|] == data && wal.disk.files[wal.segIdx := data] == wal.disk.files;
    wal.Crash(|data|);
  }

  lemma SessionIs(e: Epoch, wal: Writer.WalWriter, encode: Encoder)
    requires Loggable(e.cmds, encode) && wal.appended == Records(e.cmds, encode) && e.kept == |wal.OnDisk()|
    ensures SessionOf(e, encode) == wal.This() && |wal.appended| == |e.cmds|
  {
  }

  lemma LeftIs(e: Epoch, encode: Encoder, crc: Record.Checksum)
    requires Loggable(e.cmds, encode)
    ensures var cs := Left(e, encode, crc);
      |cs| == |Layout.Survivors(SessionOf(e, encode), crc)| && |cs| <= |e.cmds| && cs == e.cmds[..|cs|]
  {
    hide Layout.Survivors;
    Layout.SurvivorsPrefix(SessionOf(e, encode), crc);
  }
}
