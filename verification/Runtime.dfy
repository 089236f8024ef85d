/**
  The engine in motion: the sequence counter, the bounded queues, submission with back-pressure, and the loop of one
  shard over its linked books and its log, proved to compute what module Engine defines.
 */
module Runtime {
  import opened Types
  import opened Spec
  import opened Scope
  import opened Engine
  import opened BookState
  import Cascade
  import Record
  import Layout
  import Writer

  class Sequencer {
    var next: Record.U64

    constructor ()
      ensures next == 1
    {
      next := 1;
    }

    /** Hand out a number. The counter wraps after 2^64 of them. */
    method Next() returns (seqNo: Record.U64)
      modifies this
      ensures seqNo == old(next) && next == (old(next) + 1) % 0x1_0000_0000_0000_0000
    {
      seqNo := next;
      next := (next + 1) % 0x1_0000_0000_0000_0000;
    }
  }

  class Ring {
    const capacity: nat
    var items: seq<Sequenced>

    constructor (capacity: nat)
      ensures this.capacity == capacity && items == []
    {
      this.capacity, items := capacity, [];
    }

    method TryPush(c: Sequenced) returns (ok: bool)
      modifies this
      ensures ok <==> |old(items)| < capacity
      ensures items == if ok then old(items) + [c] else old(items)
    {
      ok := |items| < capacity;
      if ok {
        items := items + [c];
      }
    }

    /** The next command, or none once the queue is empty and every sender is gone. */
    method Pop() returns (c: Option<Sequenced>)
      modifies this
      ensures c.None? <==> old(items) == []
      ensures c.None? ==> items == []
      ensures c.Some? ==> old(items) == [c.value] + items
    {
      if items == [] {
        return None;
      }
      c := Some(items[0]);
      items := items[1..];
    }
  }

  datatype Submitted = Assigned(seqNo: nat) | Refused(cmd: Command)

  /** The symbols of shard i, in configuration order. */
  function Owned(symbols: seq<(SymbolId, Price)>, i: nat, shards: nat): seq<(SymbolId, Price)>
    requires shards > 0
  {
    if symbols == [] then []
    else
      var last := symbols[|symbols| - 1];
      Owned(symbols[..|symbols| - 1], i, shards) + if last.0 % shards == i then [last] else []
  }

  predicate MapsTo(s: SymbolId, i: nat, shards: nat)
    requires shards > 0
  {
    s % shards == i
  }

  /** owned are the entries of symbols at the places at, in order, and these are the places that map to shard i. */
  ghost predicate Places(symbols: seq<(SymbolId, Price)>, owned: seq<(SymbolId, Price)>, at: seq<nat>,
                         i: nat, shards: nat)
    requires shards > 0
  {
    && |at| == |owned|
    && (forall j, k :: 0 <= j < k < |at| ==> at[j] < at[k])
    && (forall j :: 0 <= j < |at| ==> at[j] < |symbols| && owned[j] == symbols[at[j]])
    && (forall k :: 0 <= k < |symbols| ==> (MapsTo(symbols[k].0, i, shards) <==> k in at))
  }

  /** A shard gets the symbols that map to it, each as often as it is configured and in that order. */
  lemma {:induction false} OwnedExactly(symbols: seq<(SymbolId, Price)>, i: nat, shards: nat) returns (at: seq<nat>)
    requires shards > 0
    ensures Places(symbols, Owned(symbols, i, shards), at, i, shards)
    decreases |symbols|
  {
    hide MapsTo, Owned, Places;
    OwnedStep(symbols, i, shards);
    if symbols == [] {
      at := [];
      NoPlaces(i, shards);
    } else {
      var front, last := symbols[..|symbols| - 1], symbols[|symbols| - 1];
      at := OwnedExactly(front, i, shards);
      assert symbols == front + [last];
      PlacesPush(front, Owned(front, i, shards), at, last, i, shards);
      if MapsTo(last.0, i, shards) {
        at := at + [|front|];
      }
    }
  }

  lemma OwnedStep(symbols: seq<(SymbolId, Price)>, i: nat, shards: nat)
    requires shards > 0
    ensures symbols == [] ==> Owned(symbols, i, shards) == []
    ensures symbols != [] ==>
      var front, last := symbols[..|symbols| - 1], symbols[|symbols| - 1];
      Owned(symbols, i, shards) == Owned(front, i, shards) + if MapsTo(last.0, i, shards) then [last] else []
  {
  }

  lemma NoPlaces(i: nat, shards: nat)
    requires shards > 0
    ensures Places([], [], [], i, shards)
  {
  }

  lemma PlacesPush(symbols: seq<(SymbolId, Price)>, owned: seq<(SymbolId, Price)>, at: seq<nat>,
                   last: (SymbolId, Price), i: nat, shards: nat)
    requires shards > 0 && Places(symbols, owned, at, i, shards)
    ensures MapsTo(last.0, i, shards) ==> Places(symbols + [last], owned + [last], at + [|symbols|], i, shards)
    ensures !MapsTo(last.0, i, shards) ==> Places(symbols + [last], owned + [], at, i, shards)
  {
    hide MapsTo;
    assert owned + [] == owned;
  }

  class Submitter {
    const sequencer: Sequencer
    const senders: seq<Ring>

    ghost predicate Valid() {
      senders != [] && forall i, j :: 0 <= i < j < |senders| ==> senders[i] != senders[j]
    }

    /** One queue per shard. */
    constructor (shards: nat, capacity: nat)
      requires shards > 0
      ensures Valid() && |senders| == shards && fresh(sequencer) && sequencer.next == 1
      ensures forall i :: 0 <= i < shards ==>
        fresh(senders[i]) && senders[i].items == [] && senders[i].capacity == capacity
    {
      var rings: seq<Ring> := [];
      for k := 0 to shards
        invariant |rings| == k
        invariant forall i :: 0 <= i < k ==> fresh(rings[i]) && rings[i].items == [] && rings[i].capacity == capacity
        invariant forall i, j :: 0 <= i < j < k ==> rings[i] != rings[j]
      {
        var ring := new Ring(capacity);
        rings := rings + [ring];
      }
      senders := rings;
      sequencer := new Sequencer();
    }

    /**
      Number a command and queue it at its symbol's shard. A full queue hands the command back, and its number is
      gone. No other queue is touched.
     */
    method Submit(cmd: Command, ts: nat) returns (r: Submitted)
      requires Valid()
      modifies sequencer, senders
      ensures sequencer.next == (old(sequencer.next) + 1) % 0x1_0000_0000_0000_0000
      ensures forall s: SymbolId :: Carries(cmd, s) ==>
        var ring := senders[s % |senders|];
        if |old(ring.items)| < ring.capacity
        then r == Assigned(old(sequencer.next))
          && ring.items == old(ring.items) + [Sequenced(old(sequencer.next), ts, cmd)]
        else r == Refused(cmd) && ring.items == old(ring.items)
      ensures forall s: SymbolId, i :: Carries(cmd, s) && 0 <= i < |senders| && i != s % |senders| ==>
        senders[i].items == old(senders[i].items)
    {
      var shard := ShardFor(CommandSymbol(cmd), |senders|);
      var seqNo := sequencer.Next();
      var ok := senders[shard].TryPush(Sequenced(seqNo, ts, cmd));
      r := if ok then Assigned(seqNo) else Refused(cmd);
    }
  }

  /** Distribute the configured symbols over the shards. */
  method Partition(symbols: seq<(SymbolId, Price)>, shards: nat) returns (parts: seq<seq<(SymbolId, Price)>>)
    requires shards > 0
    ensures |parts| == shards && forall i :: 0 <= i < shards ==> parts[i] == Owned(symbols, i, shards)
  {
    parts := seq(shards, _ => []);
    for k := 0 to |symbols|
      invariant |parts| == shards
      invariant forall i :: 0 <= i < shards ==> parts[i] == Owned(symbols[..k], i, shards)
    {
      assert symbols[..k + 1][..k] == symbols[..k];
      var i := ShardFor(symbols[k].0, shards);
      parts := parts[i := parts[i] + [symbols[k]]];
    }
    assert symbols[..|symbols|] == symbols;
  }

  // ---------------------------------------------------------------- the shard loop

  ghost predicate BooksOk(books: map<SymbolId, OrderBook>)
    reads books.Values
  {
    && (forall s :: s in books ==> books[s].Valid())
    && (forall s, t :: s in books && t in books && s != t ==> books[s] != books[t])
  }

  /** The reference books the linked books stand for. */
  ghost function Views(books: map<SymbolId, OrderBook>): Books
    requires BooksOk(books)
    reads books.Values
  {
    map s | s in books :: books[s].View()
  }

  /** Apply one command to the book of its symbol, if the shard has it. */
  method ApplyTo(books: map<SymbolId, OrderBook>, c: Sequenced) returns (out: seq<OutputEvent>)
    requires BooksOk(books)
    requires var s := CommandSymbol(c.cmd); s in Views(books) ==> InScope(Views(books)[s], c)
    modifies books.Values
    ensures BooksOk(books) && ShardOutcome(Views(books), out) == ApplyOne(old(Views(books)), c)
  {
    hide Spec.Apply, Runnable, TouchesStop, ThreadsOf, IndexOk, Covered, StaleFree, AllPending;
    out := [];
    var s := CommandSymbol(c.cmd);
    if s in books {
      assert books[s] in books.Values;
      label before:
      assert books[s].Valid();
      out := Cascade.ApplyCommand(books[s], c);
      forall t | t in books && t != s
        ensures books[t].Valid() && books[t].View() == old@before(books[t].View())
      {
        assert books[t] in books.Values;
      }
    }
  }

  /** The commands of the books' symbols are in scope, symbol by symbol. */
  ghost predicate AllInScope(books: Books, cs: seq<Sequenced>) {
    forall s :: s in books ==> RunInScope(books[s], For(cs, s))
  }

  type Encoder = Sequenced -> Record.Bytes

  /** Sequence number and time are 64-bit numbers. */
  predicate Numbered(c: Sequenced) {
    c.seqNo < 0x1_0000_0000_0000_0000 && c.ts < 0x1_0000_0000_0000_0000
  }

  ghost predicate AllNumbered(cs: seq<Sequenced>) {
    forall i :: 0 <= i < |cs| ==> Numbered(cs[i])
  }

  function RecordOf(c: Sequenced, encode: Encoder): Record.WalRecord
    requires Numbered(c)
  {
    Record.WalRecord(c.seqNo, c.ts, Record.CommandRecord, encode(c))
  }

  ghost function Records(cs: seq<Sequenced>, encode: Encoder): (rs: seq<Record.WalRecord>)
    requires AllNumbered(cs)
    ensures |rs| == |cs|
  {
    seq(|cs|, i requires 0 <= i < |cs| => RecordOf(cs[i], encode))
  }

  /** Where a shard starts: an empty book for each of its symbols. */
  function EmptyBooks(symbols: seq<(SymbolId, Price)>): Books {
    if symbols == [] then map[]
    else EmptyBooks(symbols[..|symbols| - 1])[symbols[|symbols| - 1].0 := EMPTY]
  }

  ghost predicate Configured(symbols: seq<(SymbolId, Price)>, s: SymbolId) {
    exists i :: 0 <= i < |symbols| && symbols[i].0 == s
  }

  lemma AddBook(books: map<SymbolId, OrderBook>, s: SymbolId, b: OrderBook)
    requires BooksOk(books) && b.Valid() && b !in books.Values
    ensures BooksOk(books[s := b]) && Views(books[s := b]) == Views(books)[s := b.View()]
    ensures books[s := b].Values <= books.Values + {b}
  {
    hide ThreadsOf, IndexOk, Covered, StaleFree, AllPending;
    forall t | t in books ensures books[t] in books.Values {
    }
  }

  method OpenBooks(symbols: seq<(SymbolId, Price)>) returns (books: map<SymbolId, OrderBook>)
    ensures BooksOk(books) && Views(books) == EmptyBooks(symbols) && fresh(books.Values)
  {
    hide *;
    books := map[];
    NoBooks();
    for k := 0 to |symbols|
      invariant fresh(books.Values) && BooksOk(books) && Views(books) == EmptyBooks(symbols[..k])
    {
      EmptyBooksStep(symbols, k);
      var b := new OrderBook(symbols[k].0, symbols[k].1);
      AddBook(books, symbols[k].0, b);
      books := books[symbols[k].0 := b];
    }
    assert symbols[..|symbols|] == symbols;
  }

  lemma EmptyBooksStep(symbols: seq<(SymbolId, Price)>, k: nat)
    requires k < |symbols|
    ensures EmptyBooks(symbols[..k + 1]) == EmptyBooks(symbols[..k])[symbols[k].0 := EMPTY]
  {
    assert symbols[..k + 1][..k] == symbols[..k];
  }

  lemma NoBooks()
    ensures BooksOk(map[]) && Views(map[]) == map[] == EmptyBooks([])
  {
  }

  /**
    The shard loop: append each command to the log, then apply it, until the queue is closed and empty; flush at the
    end. Books and events are the fold over the commands, and the log holds all of them.
   */
  method RunShard(symbols: seq<(SymbolId, Price)>, ring: Ring, wal: Writer.WalWriter, encode: Encoder)
      returns (books: map<SymbolId, OrderBook>, egress: seq<OutputEvent>)
    requires wal.Valid() && AllNumbered(ring.items)
    requires AllInScope(EmptyBooks(symbols), ring.items)
    modifies ring, wal, wal.disk
    ensures BooksOk(books) && ShardOutcome(Views(books), egress) == ShardRun(EmptyBooks(symbols), old(ring.items))
    ensures forall s :: s in books ==> books[s].View() == Run(EMPTY, For(old(ring.items), s)).book
    ensures forall s :: s in books <==> Configured(symbols, s)
    ensures wal.Valid() && wal.appended == old(wal.appended) + Records(old(ring.items), encode)
    ensures Layout.Survivors(wal.This(), wal.crc) == wal.appended
  {
    hide *;
    ghost var all := ring.items;
    ghost var start, before := EmptyBooks(symbols), wal.appended;
    books := OpenBooks(symbols);
    egress := [];
    ghost var done := [];
    NothingRun(start, encode);
    assert before + [] == before;
    while true
      invariant fresh(books.Values) && BooksOk(books)
      invariant done + ring.items == all
      invariant ShardOutcome(Views(books), egress) == ShardRun(start, done)
      invariant AllNumbered(done) && wal.Valid() && wal.appended == before + Records(done, encode)
      decreases |ring.items|
    {
      var next := ring.Pop();
      if next.None? {
        break;
      }
      var c := next.value;
      assert done + ([c] + ring.items) == done + [c] + ring.items;
      NumberedAt(done, c, ring.items);
      RecordsPush(done, c, encode);
      ScopeNext(start, done, c, ring.items);
      var events := LogAndApply(books, wal, c, encode);
      egress := egress + events;
      ShardRunConcat(start, done, [c]);
      ShardRunOne(ShardRun(start, done).books, c);
      done := done + [c];
    }
    assert done + [] == done;
    wal.Finish();
    BooksSplit(books, symbols, done);
  }

  /** Each linked book of a shard stands for the run of the commands that carry its symbol. */
  lemma BooksSplit(books: map<SymbolId, OrderBook>, symbols: seq<(SymbolId, Price)>, cs: seq<Sequenced>)
    requires BooksOk(books) && Views(books) == ShardRun(EmptyBooks(symbols), cs).books
    ensures forall s :: s in books ==> books[s].Valid() && books[s].View() == Run(EMPTY, For(cs, s)).book
    ensures forall s :: s in books <==> Configured(symbols, s)
  {
    hide ThreadsOf, IndexOk, Covered, StaleFree, AllPending, Run, For;
    EmptyEach(symbols);
    BooksFixed(EmptyBooks(symbols), cs);
    assert books.Keys == Views(books).Keys;
    forall s | s in books ensures books[s].Valid() && books[s].View() == Run(EMPTY, For(cs, s)).book {
      assert s in Views(books);
      ShardRunSplits(EmptyBooks(symbols), cs, s);
    }
  }

  lemma {:induction false} EmptyEach(symbols: seq<(SymbolId, Price)>)
    ensures forall s :: s in EmptyBooks(symbols) ==> EmptyBooks(symbols)[s] == EMPTY
    ensures forall s :: s in EmptyBooks(symbols) <==> Configured(symbols, s)
    decreases |symbols|
  {
    if symbols != [] {
      var n := |symbols| - 1;
      EmptyEach(symbols[..n]);
      forall s ensures Configured(symbols, s) <==> s == symbols[n].0 || Configured(symbols[..n], s) {
        if Configured(symbols, s) && s != symbols[n].0 {
          var i :| 0 <= i < |symbols| && symbols[i].0 == s;
          assert symbols[..n][i].0 == s;
        }
      }
    }
  }

  /** One turn of the loop: the command is in the log before it reaches a book. */
  method LogAndApply(books: map<SymbolId, OrderBook>, wal: Writer.WalWriter, c: Sequenced, encode: Encoder)
      returns (events: seq<OutputEvent>)
    requires BooksOk(books) && wal.Valid() && c.seqNo < 0x1_0000_0000_0000_0000 && c.ts < 0x1_0000_0000_0000_0000
    requires var s := CommandSymbol(c.cmd); s in Views(books) ==> InScope(Views(books)[s], c)
    modifies books.Values, wal, wal.disk
    ensures BooksOk(books) && ShardOutcome(Views(books), events) == ApplyOne(old(Views(books)), c)
    ensures wal.Valid()
    ensures wal.appended ==
      old(wal.appended) + [Record.WalRecord(c.seqNo, c.ts, Record.CommandRecord, encode(c))]
  {
    hide *;
    wal.Append(c.seqNo, c.ts, Record.CommandRecord, encode(c));
    events := ApplyTo(books, c);
  }

  lemma NothingRun(books: Books, encode: Encoder)
    ensures ShardRun(books, []) == ShardOutcome(books, []) && AllNumbered([]) && Records([], encode) == []
  {
  }

  lemma NumberedAt(done: seq<Sequenced>, c: Sequenced, rest: seq<Sequenced>)
    requires AllNumbered(done + [c] + rest)
    ensures Numbered(c) && c.seqNo < 0x1_0000_0000_0000_0000 && c.ts < 0x1_0000_0000_0000_0000
  {
    assert (done + [c] + rest)[|done|] == c;
  }

  lemma RecordsPush(cs: seq<Sequenced>, c: Sequenced, encode: Encoder)
    requires AllNumbered(cs) && Numbered(c)
    ensures AllNumbered(cs + [c])
    ensures Records(cs + [c], encode)
      == Records(cs, encode) + [Record.WalRecord(c.seqNo, c.ts, Record.CommandRecord, encode(c))]
  {
  }

  /** Commands in scope symbol by symbol are in scope when the shard gets to them. */
  lemma ScopeNext(start: Books, done: seq<Sequenced>, c: Sequenced, rest: seq<Sequenced>)
    requires AllInScope(start, done + [c] + rest)
    ensures var s := CommandSymbol(c.cmd); var books := ShardRun(start, done).books; s in books ==> InScope(books[s], c)
  {
    hide RunInScope, Run, InScope;
    var s := CommandSymbol(c.cmd);
    BooksFixed(start, done);
    if s in start {
      ShardRunSplits(start, done, s);
      ForConcat(done + [c], rest, s);
      ForConcat(done, [c], s);
      assert [c][1..] == [];
      assert For([c], s) == [c];
      ScopeAt(start[s], For(done, s), c, For(rest, s));
    }
  }
}
