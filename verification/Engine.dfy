/**
  The sharded engine as a system of interleaved steps. Clients take a sequence number and later push to the bounded
  queue of the symbol's shard; each shard takes a command off its queue, appends it to its log and applies it.
 */
module Engine {
  import opened Types
  import opened Spec
  import opened Invariants
  import opened Releases
  import opened Refusals

  datatype Config = Config(shards: nat, symbols: set<SymbolId>, capacity: nat)

  function ShardFor(symbol: SymbolId, shards: nat): nat
    requires shards > 0
  {
    symbol % shards
  }

  // ---------------------------------------------------------------- what one shard computes

  type Books = map<SymbolId, Book>

  datatype ShardOutcome = ShardOutcome(books: Books, events: seq<OutputEvent>)

  /** A command for a symbol without a book goes nowhere. */
  function ApplyOne(books: Books, c: Sequenced): ShardOutcome {
    var s := CommandSymbol(c.cmd);
    if s in books then
      var o := Apply(books[s], c);
      ShardOutcome(books[s := o.book], o.events)
    else
      ShardOutcome(books, [])
  }

  function ShardRun(books: Books, cs: seq<Sequenced>): ShardOutcome
    decreases |cs|
  {
    if cs == [] then ShardOutcome(books, [])
    else
      var first := ApplyOne(books, cs[0]);
      var rest := ShardRun(first.books, cs[1..]);
      ShardOutcome(rest.books, first.events + rest.events)
  }

  /** A new order carries the symbol of its order, a cancel and a replace carry one of their own. */
  predicate Carries(cmd: Command, s: SymbolId) {
    || (cmd.New? && cmd.order.symbol == s)
    || (cmd.Cancel? && cmd.symbol == s)
    || (cmd.Replace? && cmd.symbol == s)
  }

  /** The commands that carry one symbol. */
  function For(cs: seq<Sequenced>, s: SymbolId): seq<Sequenced> {
    if cs == [] then [] else (if Carries(cs[0].cmd, s) then [cs[0]] else []) + For(cs[1..], s)
  }

  lemma {:induction false} ShardRunConcat(books: Books, cs: seq<Sequenced>, ds: seq<Sequenced>)
    ensures var first := ShardRun(books, cs); var rest := ShardRun(first.books, ds);
      ShardRun(books, cs + ds) == ShardOutcome(rest.books, first.events + rest.events)
    decreases |cs|
  {
    hide ApplyOne;
    if cs == [] {
      assert cs + ds == ds;
    } else {
      var first := ApplyOne(books, cs[0]);
      assert (cs + ds)[1..] == cs[1..] + ds;
      ShardRunConcat(first.books, cs[1..], ds);
      var middle := ShardRun(first.books, cs[1..]);
      var rest := ShardRun(middle.books, ds);
      assert first.events + (middle.events + rest.events) == first.events + middle.events + rest.events;
    }
  }

  lemma ShardRunOne(books: Books, c: Sequenced)
    ensures ShardRun(books, [c]) == ApplyOne(books, c)
  {
    hide ApplyOne;
    assert [c][1..] == [];
    assert ApplyOne(books, c).events + [] == ApplyOne(books, c).events;
  }

  /** Symbols do not interact: each book is the fold over the commands of its own symbol. */
  lemma {:induction false} ShardRunSplits(books: Books, cs: seq<Sequenced>, s: SymbolId)
    requires s in books
    ensures ShardRun(books, cs).books.Keys == books.Keys
    ensures ShardRun(books, cs).books[s] == Run(books[s], For(cs, s)).book
    decreases |cs|
  {
    hide Apply;
    if cs != [] {
      ShardRunSplits(ApplyOne(books, cs[0]).books, cs[1..], s);
      if Carries(cs[0].cmd, s) {
        assert ([cs[0]] + For(cs[1..], s))[1..] == For(cs[1..], s);
      } else {
        assert [] + For(cs[1..], s) == For(cs[1..], s);
      }
    }
  }

  /**
    The next command of a shard answers from the book of the symbol it carries, as the commands before for that symbol
    have left it, behind all earlier answers. If the shard has no such book, nothing happens.
   */
  lemma ShardRunNext(books: Books, cs: seq<Sequenced>, c: Sequenced, s: SymbolId)
    requires Carries(c.cmd, s)
    ensures var before, after := ShardRun(books, cs), ShardRun(books, cs + [c]);
      if s in books then
        var o := Apply(Run(books[s], For(cs, s)).book, c);
        after == ShardOutcome(before.books[s := o.book], before.events + o.events)
      else
        after == before
  {
    hide Apply, ShardRun, Run, For;
    ShardRunConcat(books, cs, [c]);
    ShardRunOne(ShardRun(books, cs).books, c);
    BooksFixed(books, cs);
    if s in books {
      ShardRunSplits(books, cs, s);
    } else {
      assert ShardRun(books, cs).events + [] == ShardRun(books, cs).events;
    }
  }

  lemma {:induction false} ForConcat(cs: seq<Sequenced>, ds: seq<Sequenced>, s: SymbolId)
    ensures For(cs + ds, s) == For(cs, s) + For(ds, s)
  {
    if cs == [] {
      assert cs + ds == ds;
    } else {
      assert (cs + ds)[1..] == cs[1..] + ds;
      ForConcat(cs[1..], ds, s);
      var first := if Carries(cs[0].cmd, s) then [cs[0]] else [];
      assert first + (For(cs[1..], s) + For(ds, s)) == first + For(cs[1..], s) + For(ds, s);
    }
  }

  // ---------------------------------------------------------------- the system

  datatype Phase = Idle | Popped(cmd: Sequenced) | Logged(cmd: Sequenced)

  /** accepted, applied and failures are the history of a shard: pushes taken, commands applied, appends that failed. */
  datatype Shard = Shard(
    ring: seq<Sequenced>, phase: Phase, log: seq<Sequenced>, books: Books, egress: seq<OutputEvent>,
    accepted: seq<Sequenced>, applied: seq<Sequenced>, failures: nat)

  /** flight holds the commands that have a sequence number but have not been pushed. */
  datatype System = System(next: nat, flight: map<nat, Sequenced>, shards: seq<Shard>)

  datatype Action =
    | Reserve(cmd: Command, ts: nat)
    | Push(seqNo: nat)
    | Pop(shard: nat)
    | Append(shard: nat, ok: bool)
    | ApplyNext(shard: nat)

  function InitialBooks(cfg: Config, i: nat): Books
    requires cfg.shards > 0
  {
    map s | s in cfg.symbols && ShardFor(s, cfg.shards) == i :: EMPTY
  }

  function Init(cfg: Config): System
    requires cfg.shards > 0
  {
    System(1, map[], seq(cfg.shards, i requires i >= 0 => Shard([], Idle, [], InitialBooks(cfg, i), [], [], [], 0)))
  }

  function Enqueue(sh: Shard, c: Sequenced, capacity: nat): Shard {
    if |sh.ring| < capacity then sh.(ring := sh.ring + [c], accepted := sh.accepted + [c]) else sh
  }

  function Take(sh: Shard): Shard {
    if sh.phase.Idle? && sh.ring != [] then sh.(ring := sh.ring[1..], phase := Popped(sh.ring[0])) else sh
  }

  function Write(sh: Shard, ok: bool): Shard {
    if !sh.phase.Popped? then sh
    else if ok then sh.(phase := Logged(sh.phase.cmd), log := sh.log + [sh.phase.cmd])
    else sh.(phase := Logged(sh.phase.cmd), failures := sh.failures + 1)
  }

  function Execute(sh: Shard): Shard {
    if !sh.phase.Logged? then sh
    else
      var o := ApplyOne(sh.books, sh.phase.cmd);
      sh.(phase := Idle, books := o.books, egress := sh.egress + o.events, applied := sh.applied + [sh.phase.cmd])
  }

  /** One step of a client or a shard. A step that is not enabled changes nothing. */
  function Do(cfg: Config, st: System, a: Action): System
    requires cfg.shards > 0 && |st.shards| == cfg.shards
    ensures |Do(cfg, st, a).shards| == cfg.shards
  {
    match a
    case Reserve(cmd, ts) => st.(next := st.next + 1, flight := st.flight[st.next := Sequenced(st.next, ts, cmd)])
    case Push(sq) =>
      if sq !in st.flight then st
      else
        var c := st.flight[sq];
        var i := ShardFor(CommandSymbol(c.cmd), cfg.shards);
        st.(flight := st.flight - {sq}, shards := st.shards[i := Enqueue(st.shards[i], c, cfg.capacity)])
    case Pop(i) => if i < cfg.shards then st.(shards := st.shards[i := Take(st.shards[i])]) else st
    case Append(i, ok) => if i < cfg.shards then st.(shards := st.shards[i := Write(st.shards[i], ok)]) else st
    case ApplyNext(i) => if i < cfg.shards then st.(shards := st.shards[i := Execute(st.shards[i])]) else st
  }

  function After(cfg: Config, st: System, actions: seq<Action>): System
    requires cfg.shards > 0 && |st.shards| == cfg.shards
    ensures |After(cfg, st, actions).shards| == cfg.shards
    decreases |actions|
  {
    if actions == [] then st else After(cfg, Do(cfg, st, actions[0]), actions[1..])
  }

  // ---------------------------------------------------------------- what every step keeps

  /** The command a shard has taken but not applied. */
  function Hand(p: Phase): seq<Sequenced> {
    if p.Idle? then [] else [p.cmd]
  }

  ghost predicate ShardOk(cfg: Config, i: nat, sh: Shard)
    requires cfg.shards > 0
  {
    && |sh.ring| <= cfg.capacity
    && sh.accepted == sh.applied + Hand(sh.phase) + sh.ring
    && (forall c, s: SymbolId :: c in sh.accepted && Carries(c.cmd, s) ==> s % cfg.shards == i)
    && ShardOutcome(sh.books, sh.egress) == ShardRun(InitialBooks(cfg, i), sh.applied)
    && |sh.log| + sh.failures == |sh.applied| + (if sh.phase.Logged? then 1 else 0)
    && (sh.failures == 0 ==> sh.log == sh.applied + if sh.phase.Logged? then [sh.phase.cmd] else [])
  }

  /** Sequence numbers below next are handed out once: to a command in flight or at one place of one shard. */
  ghost predicate SeqsOk(st: System) {
    && (forall k :: k in st.flight ==> k < st.next && st.flight[k].seqNo == k)
    && (forall i, a :: 0 <= i < |st.shards| && 0 <= a < |st.shards[i].accepted| ==>
          st.shards[i].accepted[a].seqNo < st.next && st.shards[i].accepted[a].seqNo !in st.flight)
    && (forall i, a, b :: 0 <= i < |st.shards| && 0 <= a < b < |st.shards[i].accepted| ==>
          st.shards[i].accepted[a].seqNo != st.shards[i].accepted[b].seqNo)
    && (forall i, j, a, b ::
       0 <= i < j < |st.shards| && 0 <= a < |st.shards[i].accepted| && 0 <= b < |st.shards[j].accepted| ==>
          st.shards[i].accepted[a].seqNo != st.shards[j].accepted[b].seqNo)
  }

  ghost predicate Good(cfg: Config, st: System): (b: bool)
    requires cfg.shards > 0
    ensures b ==> |st.shards| == cfg.shards
  {
    && |st.shards| == cfg.shards
    && (forall i {:trigger st.shards[i]} :: 0 <= i < cfg.shards ==> ShardOk(cfg, i, st.shards[i]))
    && SeqsOk(st)
  }

  lemma EnqueueOk(cfg: Config, i: nat, sh: Shard, c: Sequenced)
    requires cfg.shards > 0 && ShardOk(cfg, i, sh) && ShardFor(CommandSymbol(c.cmd), cfg.shards) == i
    ensures ShardOk(cfg, i, Enqueue(sh, c, cfg.capacity))
  {
    assert sh.applied + Hand(sh.phase) + (sh.ring + [c]) == sh.applied + Hand(sh.phase) + sh.ring + [c];
  }

  lemma TakeOk(cfg: Config, i: nat, sh: Shard)
    requires cfg.shards > 0 && ShardOk(cfg, i, sh)
    ensures ShardOk(cfg, i, Take(sh))
  {
    if sh.phase.Idle? && sh.ring != [] {
      assert sh.ring == [sh.ring[0]] + sh.ring[1..];
      assert sh.applied + [] + sh.ring == sh.applied + [sh.ring[0]] + sh.ring[1..];
    }
  }

  lemma WriteOk(cfg: Config, i: nat, sh: Shard, ok: bool)
    requires cfg.shards > 0 && ShardOk(cfg, i, sh)
    ensures ShardOk(cfg, i, Write(sh, ok))
  {
    assert sh.applied + [] == sh.applied;
  }

  lemma ExecuteOk(cfg: Config, i: nat, sh: Shard)
    requires cfg.shards > 0 && ShardOk(cfg, i, sh)
    ensures ShardOk(cfg, i, Execute(sh))
  {
    if sh.phase.Logged? {
      var c := sh.phase.cmd;
      ShardRunConcat(InitialBooks(cfg, i), sh.applied, [c]);
      ShardRunOne(sh.books, c);
      assert sh.applied + [c] + [] + sh.ring == sh.applied + [c] + sh.ring;
      assert sh.applied + [c] + [] == sh.applied + [c];
    }
  }

  lemma ReserveSeqs(st: System, cmd: Command, ts: nat)
    requires SeqsOk(st)
    ensures SeqsOk(st.(next := st.next + 1, flight := st.flight[st.next := Sequenced(st.next, ts, cmd)]))
  {
  }

  /** A push takes a command out of flight, and puts it behind all others of its shard or refuses it. */
  lemma PushSeqs(st: System, sq: nat, i: nat, sh: Shard)
    requires SeqsOk(st) && sq in st.flight && i < |st.shards|
    requires sh.accepted == st.shards[i].accepted || sh.accepted == st.shards[i].accepted + [st.flight[sq]]
    ensures SeqsOk(st.(flight := st.flight - {sq}, shards := st.shards[i := sh]))
  {
  }

  lemma OtherSeqs(st: System, i: nat, sh: Shard)
    requires SeqsOk(st) && i < |st.shards| && sh.accepted == st.shards[i].accepted
    ensures SeqsOk(st.(shards := st.shards[i := sh]))
  {
  }

  lemma DoKeeps(cfg: Config, st: System, a: Action)
    requires cfg.shards > 0 && Good(cfg, st)
    ensures Good(cfg, Do(cfg, st, a))
  {
    hide ShardOk, SeqsOk, Enqueue, Take, Write, Execute;
    match a
    case Reserve(cmd, ts) => ReserveSeqs(st, cmd, ts);
    case Push(sq) =>
      if sq in st.flight {
        var c := st.flight[sq];
        var i := ShardFor(CommandSymbol(c.cmd), cfg.shards);
        EnqueueOk(cfg, i, st.shards[i], c);
        EnqueueTakes(st.shards[i], c, cfg.capacity);
        PushSeqs(st, sq, i, Enqueue(st.shards[i], c, cfg.capacity));
      }
    case Pop(i) => if i < cfg.shards {
      TakeOk(cfg, i, st.shards[i]);
      StepAccepts(st.shards[i], true);
      OtherSeqs(st, i, Take(st.shards[i]));
    }
    case Append(i, ok) => if i < cfg.shards {
      WriteOk(cfg, i, st.shards[i], ok);
      StepAccepts(st.shards[i], ok);
      OtherSeqs(st, i, Write(st.shards[i], ok));
    }
    case ApplyNext(i) => if i < cfg.shards {
      ExecuteOk(cfg, i, st.shards[i]);
      StepAccepts(st.shards[i], true);
      OtherSeqs(st, i, Execute(st.shards[i]));
    }
  }

  lemma EnqueueTakes(sh: Shard, c: Sequenced, capacity: nat)
    ensures Enqueue(sh, c, capacity).accepted == if |sh.ring| < capacity then sh.accepted + [c] else sh.accepted
  {
  }

  lemma StepAccepts(sh: Shard, ok: bool)
    ensures Take(sh).accepted == sh.accepted && Write(sh, ok).accepted == sh.accepted
      && Execute(sh).accepted == sh.accepted
  {
  }

  lemma {:induction false} AfterKeeps(cfg: Config, st: System, actions: seq<Action>)
    requires cfg.shards > 0 && Good(cfg, st)
    ensures Good(cfg, After(cfg, st, actions))
    decreases |actions|
  {
    hide Good, Do;
    if actions != [] {
      DoKeeps(cfg, st, actions[0]);
      AfterKeeps(cfg, Do(cfg, st, actions[0]), actions[1..]);
    }
  }

  lemma InitGood(cfg: Config)
    requires cfg.shards > 0
    ensures Good(cfg, Init(cfg))
  {
  }

  /**
    Every interleaving of any length: what a shard has applied, the command in its hand and its queue are the accepted
    pushes in order; no sequence number is used twice; and books and events are the fold over the applied commands.
   */
  lemma EveryRun(cfg: Config, actions: seq<Action>)
    requires cfg.shards > 0
    ensures Good(cfg, After(cfg, Init(cfg), actions))
  {
    hide Good;
    InitGood(cfg);
    AfterKeeps(cfg, Init(cfg), actions);
  }

  // ---------------------------------------------------------------- consequences

  predicate Drained(sh: Shard) {
    sh.phase.Idle? && sh.ring == []
  }

  /**
    Schedule independence: once the queue of a symbol's shard is drained, the symbol's book is the fold over the
    accepted commands of that symbol. Other symbols, the interleaving and the number of shards do not matter.
   */
  lemma BookOfSymbol(cfg: Config, actions: seq<Action>, s: SymbolId)
    requires cfg.shards > 0 && s in cfg.symbols
    ensures var i := s % cfg.shards; var sh := After(cfg, Init(cfg), actions).shards[i];
      && s in sh.books && sh.books[s] == Run(EMPTY, For(sh.applied, s)).book
      && (Drained(sh) ==> sh.applied == sh.accepted && sh.books[s] == Run(EMPTY, For(sh.accepted, s)).book)
      && (forall j :: 0 <= j < cfg.shards && j != i ==> s !in After(cfg, Init(cfg), actions).shards[j].books)
  {
    hide After, Run, For, SeqsOk;
    var st := After(cfg, Init(cfg), actions);
    EveryRun(cfg, actions);
    var i := s % cfg.shards;
    ShardRunSplits(InitialBooks(cfg, i), st.shards[i].applied, s);
    if Drained(st.shards[i]) {
      assert st.shards[i].applied + [] + [] == st.shards[i].applied;
    }
    forall j | 0 <= j < cfg.shards && j != i ensures s !in st.shards[j].books {
      assert ShardOk(cfg, j, st.shards[j]);
      BooksFixed(InitialBooks(cfg, j), st.shards[j].applied);
    }
  }

  lemma {:induction false} BooksFixed(books: Books, cs: seq<Sequenced>)
    ensures ShardRun(books, cs).books.Keys == books.Keys
    decreases |cs|
  {
    hide Apply;
    if cs != [] {
      BooksFixed(ApplyOne(books, cs[0]).books, cs[1..]);
    }
  }

  /**
    A cancel reaches the order it names: once the queue of a symbol's shard is drained, an order cancelled under that
    symbol is gone from the symbol's book, unless a later command for the symbol submitted its id again.
   */
  lemma CancelArrives(cfg: Config, actions: seq<Action>, s: SymbolId, front: seq<Sequenced>, z: Sequenced,
                      back: seq<Sequenced>, id: OrderId)
    requires cfg.shards > 0 && s in cfg.symbols && z.cmd == Cancel(id, s)
    requires var sh := After(cfg, Init(cfg), actions).shards[s % cfg.shards];
      Drained(sh) && sh.accepted == front + [z] + back
    requires forall c :: c in back && c.cmd.New? && c.cmd.order.symbol == s ==> c.cmd.order.id != id
    ensures var sh := After(cfg, Init(cfg), actions).shards[s % cfg.shards];
      s in sh.books && !Known(sh.books[s], id)
  {
    hide After, Init, Run, For, Apply, Known, HasId;
    BookOfSymbol(cfg, actions, s);
    ForConcat(front + [z], back, s);
    ForConcat(front, [z], s);
    ForOne(z, s);
    var b := Run(EMPTY, For(front, s)).book;
    RunKeeps(EMPTY, For(front, s));
    StartKeeps();
    RunConcat(EMPTY, For(front, s) + [z], For(back, s));
    RunConcat(EMPTY, For(front, s), [z]);
    RunOne(b, z);
    var after := Apply(b, z).book;
    CancelledGone(b, id, s, z.seqNo, z.ts);
    ApplyKeeps(b, z);
    ForMembers(back, s);
    StaysAway(after, For(back, s), id);
    KnownIs(Run(after, For(back, s)).book, id);
  }

  lemma StartKeeps()
    ensures Inv(EMPTY)
  {
  }

  lemma ForOne(c: Sequenced, s: SymbolId)
    requires Carries(c.cmd, s)
    ensures For([c], s) == [c]
  {
    assert [c][1..] == [];
    assert For([], s) == [];
  }

  lemma RunOne(b: Book, c: Sequenced)
    ensures Run(b, [c]).book == Apply(b, c).book
  {
    hide Apply;
    assert [c][1..] == [];
  }

  lemma {:induction false} ForMembers(cs: seq<Sequenced>, s: SymbolId)
    ensures forall c :: c in For(cs, s) ==> c in cs && Carries(c.cmd, s)
  {
    if cs != [] {
      ForMembers(cs[1..], s);
    }
  }

  lemma CancelledGone(b: Book, id: OrderId, s: SymbolId, sq: nat, ts: nat)
    requires Inv(b)
    ensures !HasId(Apply(b, Sequenced(sq, ts, Cancel(id, s))).book, id)
  {
    hide Inv, HasId, Remove;
    RemoveKeeps(b, id);
  }

  /** An id no command submits does not enter the book. */
  lemma {:induction false} StaysAway(b: Book, cs: seq<Sequenced>, id: OrderId)
    requires Inv(b) && !HasId(b, id)
    requires forall c :: c in cs && c.cmd.New? ==> c.cmd.order.id != id
    ensures !HasId(Run(b, cs).book, id)
    decreases |cs|
  {
    hide Inv, HasId, Apply;
    if cs != [] {
      ApplyKeeps(b, cs[0]);
      ApplyIds(b, cs[0], id);
      assert forall c :: c in cs[1..] ==> c in cs;
      StaysAway(Apply(b, cs[0]).book, cs[1..], id);
    }
  }

  /** Two engines that accepted the same commands for a symbol in the same order agree on its book. */
  lemma ScheduleIndependence(cfg: Config, actions: seq<Action>, cfg': Config, actions': seq<Action>, s: SymbolId)
    requires cfg.shards > 0 && cfg'.shards > 0 && s in cfg.symbols && s in cfg'.symbols
    requires var sh := After(cfg, Init(cfg), actions).shards[s % cfg.shards];
      var sh' := After(cfg', Init(cfg'), actions').shards[s % cfg'.shards];
      Drained(sh) && Drained(sh') && For(sh.accepted, s) == For(sh'.accepted, s)
    ensures var sh := After(cfg, Init(cfg), actions).shards[s % cfg.shards];
      var sh' := After(cfg', Init(cfg'), actions').shards[s % cfg'.shards];
      s in sh.books && s in sh'.books && sh.books[s] == sh'.books[s]
  {
    hide After, Run, For, Init;
    BookOfSymbol(cfg, actions, s);
    BookOfSymbol(cfg', actions', s);
  }

  /** Between two commands the log is what was applied exactly when no append has failed. */
  lemma LogBeforeApply(cfg: Config, actions: seq<Action>, i: nat)
    requires cfg.shards > 0 && i < cfg.shards
    ensures var sh := After(cfg, Init(cfg), actions).shards[i];
      && (!sh.phase.Logged? ==> (sh.log == sh.applied <==> sh.failures == 0))
      && (sh.failures == 0 ==>
         sh.applied <= sh.log && ShardRun(InitialBooks(cfg, i), sh.log[..|sh.applied|]).books == sh.books)
  {
    hide After, ShardRun, SeqsOk;
    var st := After(cfg, Init(cfg), actions);
    EveryRun(cfg, actions);
    assert ShardOk(cfg, i, st.shards[i]);
    assert st.shards[i].failures == 0 ==> st.shards[i].log[..|st.shards[i].applied|] == st.shards[i].applied;
  }

  /**
    A submission that nothing interrupts: the command stands last in the queue of its symbol's shard, or that queue is
    full and refuses it. Its number is used up either way, and no other shard notices.
   */
  lemma SubmitSteps(cfg: Config, st: System, cmd: Command, s: SymbolId, ts: nat)
    requires cfg.shards > 0 && Good(cfg, st) && Carries(cmd, s)
    ensures var i := s % cfg.shards; var sh := st.shards[i]; var c := Sequenced(st.next, ts, cmd);
      After(cfg, st, [Reserve(cmd, ts), Push(st.next)])
      == System(st.next + 1, st.flight,
           if |sh.ring| < cfg.capacity
           then st.shards[i := sh.(ring := sh.ring + [c], accepted := sh.accepted + [c])] else st.shards)
  {
    hide ShardOk;
    var s1 := Do(cfg, st, Reserve(cmd, ts));
    AfterStep(cfg, st, [Reserve(cmd, ts), Push(st.next)]);
    AfterStep(cfg, s1, [Reserve(cmd, ts), Push(st.next)][1..]);
    assert s1.flight - {st.next} == st.flight;
    assert st.shards[s % cfg.shards := st.shards[s % cfg.shards]] == st.shards;
  }

  /** One turn of an idle shard's loop moves the first command of its queue through the log into its book. */
  lemma TurnSteps(cfg: Config, st: System, i: nat)
    requires cfg.shards > 0 && |st.shards| == cfg.shards && i < cfg.shards
    requires st.shards[i].phase.Idle? && st.shards[i].ring != []
    ensures var sh := st.shards[i]; var c := sh.ring[0]; var o := ApplyOne(sh.books, c);
      After(cfg, st, [Pop(i), Append(i, true), ApplyNext(i)])
      == st.(shards := st.shards[i := sh.(ring := sh.ring[1..], log := sh.log + [c], books := o.books,
                                         egress := sh.egress + o.events, applied := sh.applied + [c])])
  {
    hide ApplyOne;
    var actions := [Pop(i), Append(i, true), ApplyNext(i)];
    var s1 := Do(cfg, st, Pop(i));
    var s2 := Do(cfg, s1, Append(i, true));
    AfterStep(cfg, st, actions);
    AfterStep(cfg, s1, actions[1..]);
    AfterStep(cfg, s2, actions[1..][1..]);
    assert s1.shards[i] == Take(st.shards[i]);
    assert s2.shards[i] == Write(Take(st.shards[i]), true);
    assert Do(cfg, s2, ApplyNext(i)).shards == st.shards[i := Execute(Write(Take(st.shards[i]), true))];
  }

  /** n turns of shard i. */
  function Turns(i: nat, n: nat): seq<Action> {
    if n == 0 then [] else [Pop(i), Append(i, true), ApplyNext(i)] + Turns(i, n - 1)
  }

  lemma {:induction false} AfterConcat(cfg: Config, st: System, front: seq<Action>, back: seq<Action>)
    requires cfg.shards > 0 && |st.shards| == cfg.shards
    ensures After(cfg, st, front + back) == After(cfg, After(cfg, st, front), back)
    decreases |front|
  {
    hide Do;
    if front == [] {
      assert front + back == back;
    } else {
      assert (front + back)[1..] == front[1..] + back;
      AfterConcat(cfg, Do(cfg, st, front[0]), front[1..], back);
    }
  }

  /**
    Shutdown drains: once no client pushes any more, as many turns as the queue is long apply all that was
    accepted.
   */
  lemma {:induction false} Drains(cfg: Config, st: System, i: nat)
    requires cfg.shards > 0 && Good(cfg, st) && i < cfg.shards && st.shards[i].phase.Idle?
    ensures var sh := After(cfg, st, Turns(i, |st.shards[i].ring|)).shards[i];
      Drained(sh) && sh.applied == sh.accepted == st.shards[i].accepted
    decreases |st.shards[i].ring|
  {
    hide SeqsOk, ShardRun, Do, ApplyOne;
    var sh := st.shards[i];
    assert ShardOk(cfg, i, sh);
    if sh.ring == [] {
      assert sh.applied + [] + [] == sh.applied;
    } else {
      var turn := [Pop(i), Append(i, true), ApplyNext(i)];
      TurnSteps(cfg, st, i);
      AfterKeeps(cfg, st, turn);
      AfterConcat(cfg, st, turn, Turns(i, |sh.ring| - 1));
      Drains(cfg, After(cfg, st, turn), i);
    }
  }

  // ---------------------------------------------------------------- queue order and sequence order

  ghost predicate Ascending(cs: seq<Sequenced>) {
    forall a, b :: 0 <= a < b < |cs| ==> cs[a].seqNo < cs[b].seqNo
  }

  /** The command in flight under number k is for shard i. */
  predicate Bound(cfg: Config, st: System, i: nat, k: nat)
    requires cfg.shards > 0
  {
    k in st.flight && ShardFor(CommandSymbol(st.flight[k].cmd), cfg.shards) == i
  }

  /** At most one command for shard i is in flight, and it is younger than all that the shard has accepted. */
  ghost predicate Lone(cfg: Config, st: System, i: nat)
    requires cfg.shards > 0 && i < |st.shards|
  {
    && (forall k, l :: Bound(cfg, st, i, k) && Bound(cfg, st, i, l) ==> k == l)
    && (forall k, a :: Bound(cfg, st, i, k) && 0 <= a < |st.shards[i].accepted| ==> st.shards[i].accepted[a].seqNo < k)
  }

  /** A schedule of what is pending: pushes and shard steps in any order, but no new numbers. */
  ghost predicate NoneTaken(actions: seq<Action>) {
    forall j :: 0 <= j < |actions| ==> !actions[j].Reserve?
  }

  ghost predicate InOrder(cfg: Config, st: System, i: nat)
    requires cfg.shards > 0 && i < |st.shards|
  {
    Ascending(st.shards[i].accepted) && Lone(cfg, st, i)
  }

  /** Shard steps touch neither the flight nor what a shard has accepted. */
  lemma ShardStep(cfg: Config, st: System, a: Action, i: nat)
    requires cfg.shards > 0 && |st.shards| == cfg.shards && i < cfg.shards && !a.Reserve? && !a.Push?
    ensures Do(cfg, st, a).flight == st.flight && Do(cfg, st, a).shards[i].accepted == st.shards[i].accepted
  {
    match a
    case Pop(j) => if j < cfg.shards { StepAccepts(st.shards[j], true); }
    case Append(j, ok) => if j < cfg.shards { StepAccepts(st.shards[j], ok); }
    case ApplyNext(j) => if j < cfg.shards { StepAccepts(st.shards[j], true); }
  }

  lemma PushStep(cfg: Config, st: System, sq: nat, i: nat)
    requires cfg.shards > 0 && |st.shards| == cfg.shards && i < cfg.shards
    ensures var st' := Do(cfg, st, Push(sq));
      && st'.flight == st.flight - {sq}
      && st'.shards[i].accepted ==
           if Bound(cfg, st, i, sq) && |st.shards[i].ring| < cfg.capacity
           then st.shards[i].accepted + [st.flight[sq]] else st.shards[i].accepted
  {
    if sq in st.flight {
      var c := st.flight[sq];
      var j := ShardFor(CommandSymbol(c.cmd), cfg.shards);
      EnqueueTakes(st.shards[j], c, cfg.capacity);
    } else {
      assert st.flight - {sq} == st.flight;
    }
  }

  lemma PushInOrder(cfg: Config, st: System, sq: nat, i: nat)
    requires cfg.shards > 0 && Good(cfg, st) && i < cfg.shards && InOrder(cfg, st, i)
    ensures InOrder(cfg, Do(cfg, st, Push(sq)), i)
  {
    hide ShardOk, Do;
    var st' := Do(cfg, st, Push(sq));
    PushStep(cfg, st, sq, i);
    assert forall k :: Bound(cfg, st', i, k) ==> Bound(cfg, st, i, k) && k != sq;
    var before, after := st.shards[i].accepted, st'.shards[i].accepted;
    if after != before {
      assert Bound(cfg, st, i, sq) && st.flight[sq].seqNo == sq;
      assert forall k :: !Bound(cfg, st', i, k);
      forall a, b | 0 <= a < b < |after| ensures after[a].seqNo < after[b].seqNo {
        assert after[a] == before[a];
        assert b < |before| ==> after[b] == before[b];
      }
    }
  }

  /** A new number for shard i keeps the shard in order exactly when nothing else is in flight for it. */
  lemma ReserveExactly(cfg: Config, st: System, cmd: Command, ts: nat, i: nat)
    requires cfg.shards > 0 && Good(cfg, st) && i < cfg.shards && InOrder(cfg, st, i)
    ensures InOrder(cfg, Do(cfg, st, Reserve(cmd, ts)), i) <==> Free(cfg, st, i, Reserve(cmd, ts))
  {
    hide ShardOk;
    var st' := Do(cfg, st, Reserve(cmd, ts));
    assert forall k :: k in st.flight ==> k < st.next;
    assert forall k :: Bound(cfg, st, i, k) ==> Bound(cfg, st', i, k) && k != st.next;
    assert forall k :: Bound(cfg, st', i, k) ==> k == st.next || Bound(cfg, st, i, k);
    assert Bound(cfg, st', i, st.next) <==> ShardFor(CommandSymbol(cmd), cfg.shards) == i;
  }

  /** a takes no number for shard i while a command for that shard is in flight. */
  ghost predicate Free(cfg: Config, st: System, i: nat, a: Action)
    requires cfg.shards > 0
  {
    a.Reserve? && ShardFor(CommandSymbol(a.cmd), cfg.shards) == i ==> forall k :: !Bound(cfg, st, i, k)
  }

  lemma DoInOrder(cfg: Config, st: System, a: Action, i: nat)
    requires cfg.shards > 0 && Good(cfg, st) && i < cfg.shards && InOrder(cfg, st, i)
    ensures InOrder(cfg, Do(cfg, st, a), i) <==> Free(cfg, st, i, a)
  {
    hide ShardOk, SeqsOk, Do;
    match a
    case Reserve(cmd, ts) => ReserveExactly(cfg, st, cmd, ts, i);
    case Push(sq) => PushInOrder(cfg, st, sq, i);
    case _ =>
      ShardStep(cfg, st, a, i);
      assert forall k :: Bound(cfg, Do(cfg, st, a), i, k) <==> Bound(cfg, st, i, k);
  }

  lemma {:induction false} PendingInOrder(cfg: Config, st: System, actions: seq<Action>, i: nat)
    requires cfg.shards > 0 && Good(cfg, st) && i < cfg.shards && InOrder(cfg, st, i) && NoneTaken(actions)
    ensures InOrder(cfg, After(cfg, st, actions), i)
    decreases |actions|
  {
    hide Good, InOrder, Do;
    if actions != [] {
      DoKeeps(cfg, st, actions[0]);
      DoInOrder(cfg, st, actions[0], i);
      PendingInOrder(cfg, Do(cfg, st, actions[0]), actions[1..], i);
    }
  }

  /** Steps of shard i after which its queue has room, whatever the shard was doing. */
  function MakeRoom(i: nat): seq<Action> {
    [Append(i, true), ApplyNext(i), Pop(i)]
  }

  lemma RoomMade(cfg: Config, st: System, i: nat)
    requires cfg.shards > 0 && Good(cfg, st) && i < cfg.shards && cfg.capacity > 0
    ensures var st' := After(cfg, st, MakeRoom(i));
      && Good(cfg, st') && st'.flight == st.flight && st'.shards[i].accepted == st.shards[i].accepted
      && |st'.shards[i].ring| < cfg.capacity
  {
    hide SeqsOk, ApplyOne;
    var s1 := Do(cfg, st, Append(i, true));
    var s2 := Do(cfg, s1, ApplyNext(i));
    AfterKeeps(cfg, st, MakeRoom(i));
    AfterStep(cfg, st, MakeRoom(i));
    AfterStep(cfg, s1, MakeRoom(i)[1..]);
    AfterStep(cfg, s2, MakeRoom(i)[1..][1..]);
    assert ShardOk(cfg, i, st.shards[i]);
    var sh := st.shards[i];
    assert s2.shards[i] == Execute(Write(sh, true));
    assert After(cfg, st, MakeRoom(i)).shards[i] == Take(Execute(Write(sh, true)));
  }

  /** Make room, then push. */
  function PushSurely(i: nat, sq: nat): seq<Action> {
    MakeRoom(i) + [Push(sq)]
  }

  lemma PushedSurely(cfg: Config, st: System, i: nat, sq: nat)
    requires cfg.shards > 0 && Good(cfg, st) && i < cfg.shards && cfg.capacity > 0 && Bound(cfg, st, i, sq)
    ensures var st' := After(cfg, st, PushSurely(i, sq));
      && Good(cfg, st') && st'.flight == st.flight - {sq}
      && st'.shards[i].accepted == st.shards[i].accepted + [st.flight[sq]] && st.flight[sq].seqNo == sq
  {
    hide ShardOk, Do, MakeRoom;
    var s1 := After(cfg, st, MakeRoom(i));
    RoomMade(cfg, st, i);
    AfterConcat(cfg, st, MakeRoom(i), [Push(sq)]);
    AfterStep(cfg, s1, [Push(sq)]);
    PushStep(cfg, s1, sq, i);
    AfterKeeps(cfg, st, PushSurely(i, sq));
  }

  /** If a shard is not in order, a schedule of the pending pushes queues two of its commands against their numbers. */
  lemma Reorders(cfg: Config, st: System, i: nat) returns (actions: seq<Action>)
    requires cfg.shards > 0 && Good(cfg, st) && i < cfg.shards && cfg.capacity > 0 && !InOrder(cfg, st, i)
    ensures NoneTaken(actions) && !Ascending(After(cfg, st, actions).shards[i].accepted)
  {
    hide Good, Do, MakeRoom;
    var before := st.shards[i].accepted;
    actions := [];
    if !Ascending(before) {
    } else if k: nat, a: nat :| Bound(cfg, st, i, k) && 0 <= a < |before| && before[a].seqNo >= k {
      PendingSurely(i, k);
      actions := PushSurely(i, k);
      PushedSurely(cfg, st, i, k);
      var after := After(cfg, st, actions).shards[i].accepted;
      assert after[a] == before[a] && after[|before|].seqNo == k;
    } else {
      var k: nat, l: nat :| Bound(cfg, st, i, k) && Bound(cfg, st, i, l) && k != l;
      actions := TwoReorder(cfg, st, i, if k < l then k else l, if k < l then l else k);
    }
  }

  lemma TwoReorder(cfg: Config, st: System, i: nat, k: nat, l: nat) returns (actions: seq<Action>)
    requires cfg.shards > 0 && Good(cfg, st) && i < cfg.shards && cfg.capacity > 0
    requires k < l && Bound(cfg, st, i, k) && Bound(cfg, st, i, l)
    ensures NoneTaken(actions) && !Ascending(After(cfg, st, actions).shards[i].accepted)
  {
    hide Good, Do, MakeRoom, PushSurely;
    var before, s1 := st.shards[i].accepted, After(cfg, st, PushSurely(i, l));
    PushedSurely(cfg, st, i, l);
    PushedSurely(cfg, s1, i, k);
    AfterConcat(cfg, st, PushSurely(i, l), PushSurely(i, k));
    PendingSurely(i, l);
    PendingSurely(i, k);
    actions := PushSurely(i, l) + PushSurely(i, k);
    var after := After(cfg, st, actions).shards[i].accepted;
    assert after[|before|].seqNo == l && after[|before| + 1].seqNo == k;
  }

  lemma PendingSurely(i: nat, sq: nat)
    ensures NoneTaken(PushSurely(i, sq))
  {
  }

  /** No schedule of the pending pushes queues commands of shard i against their numbers. */
  ghost predicate Safe(cfg: Config, st: System, i: nat)
    requires cfg.shards > 0 && |st.shards| == cfg.shards && i < cfg.shards
  {
    forall actions :: NoneTaken(actions) ==> Ascending(After(cfg, st, actions).shards[i].accepted)
  }

  /**
    From a shard whose queue has been in order so far, every schedule of the pending pushes keeps it so if and only if
    at most one command for it is in flight, younger than all it has accepted.
   */
  lemma SafeExactly(cfg: Config, st: System, i: nat)
    requires cfg.shards > 0 && Good(cfg, st) && i < cfg.shards && cfg.capacity > 0 && Ascending(st.shards[i].accepted)
    ensures Safe(cfg, st, i) <==> Lone(cfg, st, i)
  {
    hide Good, Ascending, Lone;
    if Lone(cfg, st, i) {
      forall actions | NoneTaken(actions) ensures Ascending(After(cfg, st, actions).shards[i].accepted) {
        PendingInOrder(cfg, st, actions, i);
      }
    } else {
      var actions := Reorders(cfg, st, i);
    }
  }

  /** No client takes a number for shard i while another command for that shard is in flight. */
  ghost predicate Serial(cfg: Config, st: System, i: nat, actions: seq<Action>)
    requires cfg.shards > 0 && |st.shards| == cfg.shards
    decreases |actions|
  {
    actions != [] ==> Free(cfg, st, i, actions[0]) && Serial(cfg, Do(cfg, st, actions[0]), i, actions[1..])
  }

  /** The shard is safe in every state of a run. */
  ghost predicate AlwaysSafe(cfg: Config, st: System, i: nat, actions: seq<Action>)
    requires cfg.shards > 0 && |st.shards| == cfg.shards && i < cfg.shards
    decreases |actions|
  {
    Safe(cfg, st, i) && (actions != [] ==> AlwaysSafe(cfg, Do(cfg, st, actions[0]), i, actions[1..]))
  }

  lemma SafeInOrder(cfg: Config, st: System, i: nat)
    requires cfg.shards > 0 && Good(cfg, st) && i < cfg.shards && cfg.capacity > 0
    ensures Safe(cfg, st, i) <==> InOrder(cfg, st, i)
  {
    hide Good, Lone, Ascending;
    if Ascending(st.shards[i].accepted) {
      SafeExactly(cfg, st, i);
    } else {
      assert NoneTaken([]) && After(cfg, st, []) == st;
    }
  }

  lemma {:induction false} SerialSafe(cfg: Config, st: System, i: nat, actions: seq<Action>)
    requires cfg.shards > 0 && Good(cfg, st) && i < cfg.shards && cfg.capacity > 0 && InOrder(cfg, st, i)
    ensures AlwaysSafe(cfg, st, i, actions) <==> Serial(cfg, st, i, actions)
    ensures Serial(cfg, st, i, actions) ==> InOrder(cfg, After(cfg, st, actions), i)
    decreases |actions|
  {
    hide Good, InOrder, Safe, Free, Do;
    SafeInOrder(cfg, st, i);
    if actions != [] {
      var st' := Do(cfg, st, actions[0]);
      DoKeeps(cfg, st, actions[0]);
      DoInOrder(cfg, st, actions[0], i);
      if InOrder(cfg, st', i) {
        SerialSafe(cfg, st', i, actions[1..]);
      } else {
        SafeInOrder(cfg, st', i);
      }
    }
  }

  /**
    A shard's queue is safe from reordering in every state of a run if and only if no client took a number for the
    shard while another command for it was in flight. Other shards may overlap as they like.
   */
  lemma SerialOrder(cfg: Config, actions: seq<Action>, i: nat)
    requires cfg.shards > 0 && i < cfg.shards && cfg.capacity > 0
    ensures AlwaysSafe(cfg, Init(cfg), i, actions) <==> Serial(cfg, Init(cfg), i, actions)
    ensures Serial(cfg, Init(cfg), i, actions) ==>
      var sh := After(cfg, Init(cfg), actions).shards[i]; Ascending(sh.accepted) && Ascending(sh.applied)
  {
    hide ShardRun, Do, SeqsOk, Lone;
    InitGood(cfg);
    InitInOrder(cfg, i);
    SerialSafe(cfg, Init(cfg), i, actions);
    EveryRun(cfg, actions);
    var sh := After(cfg, Init(cfg), actions).shards[i];
    assert ShardOk(cfg, i, sh);
    assert forall a :: 0 <= a < |sh.applied| ==> sh.applied[a] == sh.accepted[a];
  }

  lemma InitInOrder(cfg: Config, i: nat)
    requires cfg.shards > 0 && i < cfg.shards
    ensures InOrder(cfg, Init(cfg), i)
  {
  }

  /** Two clients that overlap: the second sequence number is queued first. Time priority follows the queue. */
  lemma OverlapReorders(cfg: Config, c: Command, d: Command)
    requires cfg.shards == 1 && cfg.capacity >= 2
    ensures After(cfg, Init(cfg), [Reserve(c, 0), Reserve(d, 0), Push(2), Push(1)]).shards[0].accepted
         == [Sequenced(2, 0, d), Sequenced(1, 0, c)]
  {
    var actions := [Reserve(c, 0), Reserve(d, 0), Push(2), Push(1)];
    var s0 := Init(cfg);
    var s1 := Do(cfg, s0, actions[0]);
    var s2 := Do(cfg, s1, actions[1]);
    var s3 := Do(cfg, s2, actions[2]);
    var s4 := Do(cfg, s3, actions[3]);
    assert s2.flight == map[1 := Sequenced(1, 0, c), 2 := Sequenced(2, 0, d)];
    assert s3.shards[0].accepted == [Sequenced(2, 0, d)] && s3.flight == map[1 := Sequenced(1, 0, c)];
    assert s4.shards[0].accepted == [Sequenced(2, 0, d), Sequenced(1, 0, c)];
    AfterStep(cfg, s0, actions);
    AfterStep(cfg, s1, actions[1..]);
    AfterStep(cfg, s2, actions[1..][1..]);
    AfterStep(cfg, s3, actions[1..][1..][1..]);
  }

  lemma AfterStep(cfg: Config, st: System, actions: seq<Action>)
    requires cfg.shards > 0 && |st.shards| == cfg.shards && actions != []
    ensures After(cfg, st, actions) == After(cfg, Do(cfg, st, actions[0]), actions[1..])
    ensures |actions| == 1 ==> After(cfg, st, actions) == Do(cfg, st, actions[0])
  {
  }
}
