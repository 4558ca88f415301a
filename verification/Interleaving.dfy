/** PostTransaction split into its store calls, with any number of clients whose calls interleave and may stop. */
module Interleaving {
  import opened Outcomes
  import opened LedgerTypes
  import opened Volumes
  import opened Effects
  import opened Ledger
  import opened LedgerSteps
  import LedgerLaws

  /** A call past its lookup and checks has computed the moves of its first ends; then it only has its log to write. */
  datatype Client =
    | Building(ledger: string, request: Request, built: Built)
    | Logging(ledger: string, tx: Transaction)

  /** The store, the calls under way, and the requests inserted so far in commit order. */
  datatype System = System(books: State, clients: map<nat, Client>, commits: seq<Op>)

  datatype Action =
    | Begin(client: nat, ledger: string, request: Request) // the reference lookup and the checks
    | Ensure(client: nat, address: string)                 // create a missing account
    | Read(client: nat)                                    // read one end's volumes and build its move
    | Insert(client: nat)
    | Log(client: nat)
    | Stop(client: nat)                                    // crash or lose the connection

  function AddEnd(b: Built, ledger: string, es: seq<Entry>, stored: (string, string) -> Volume): Built
    requires |b.moves| < 2 * |es|
  {
    var k := |b.moves|;
    AddMove(b, ledger, End(es, k), es[k / 2].asset, k % 2 == 0, es[k / 2].amount, stored)
  }

  predicate CanBegin(sys: System, client: nat, ledger: string, req: Request) {
    client !in sys.clients && req.postings != [] && !Repeats(sys.books, ledger, req) && FirstError(req.postings) == None
  }

  predicate CanRead(sys: System, client: nat) {
    && client in sys.clients && sys.clients[client].Building?
    && |sys.clients[client].built.moves| < 2 * |sys.clients[client].request.postings|
  }

  predicate CanInsert(sys: System, client: nat) {
    && client in sys.clients && sys.clients[client].Building?
    && |sys.clients[client].built.moves| == 2 * |sys.clients[client].request.postings|
  }

  function ReadEnd(c: Client, books: State): Client
    requires c.Building? && |c.built.moves| < 2 * |c.request.postings|
  {
    c.(built := AddEnd(c.built, c.ledger, Entries(c.request.postings), Stored(Flows(books.moves), c.ledger)))
  }

  function InsertBuilt(books: State, c: Client): State
    requires c.Building?
  {
    Ledger.Insert(books, c.ledger, c.request.reference, c.request.postings, PrintedMoves(c.built.moves))
  }

  /** The insert call. A store with the unique index refuses a reference it already holds, and the call ends with an
      error; the in-memory store inserts a second transaction. */
  function AfterInsert(unique: bool, sys: System, client: nat, c: Client): System
    requires c.Building?
  {
    if unique && Repeats(sys.books, c.ledger, c.request) then sys.(clients := sys.clients - {client})
    else
      var tx := NumberTransaction(sys.books, c.ledger, c.request.reference, c.request.postings);
      System(InsertBuilt(sys.books, c), sys.clients[client := Logging(c.ledger, tx)],
             sys.commits + [PostOp(c.ledger, c.request)])
  }

  /** One store call; an action that is not enabled does nothing. */
  function Step(unique: bool, sys: System, a: Action): System {
    match a
    case Begin(client, ledger, req) =>
      if CanBegin(sys, client, ledger, req)
      then sys.(clients := sys.clients[client := Building(ledger, req, Built([], map[]))])
      else sys
    case Ensure(client, address) =>
      if client in sys.clients && sys.clients[client].Building?
      then sys.(books := PutAccount(sys.books, sys.clients[client].ledger, address, "unknown"))
      else sys
    case Read(client) =>
      if CanRead(sys, client)
      then sys.(clients := sys.clients[client := ReadEnd(sys.clients[client], sys.books)])
      else sys
    case Insert(client) =>
      if CanInsert(sys, client) then AfterInsert(unique, sys, client, sys.clients[client]) else sys
    case Log(client) =>
      if client in sys.clients && sys.clients[client].Logging?
      then System(AddLog(sys.books, sys.clients[client].ledger, sys.clients[client].tx), sys.clients - {client},
                  sys.commits)
      else sys
    case Stop(client) => sys.(clients := sys.clients - {client})
  }

  function Steps(unique: bool, actions: seq<Action>): System {
    if actions == [] then System(EMPTY, map[], [])
    else Step(unique, Steps(unique, actions[..|actions| - 1]), actions[|actions| - 1])
  }

  /*** Under any interleaving, moves cancel ***/

  /** The moves built so far are the legs of the request in order, whatever volumes were read. */
  ghost predicate LegsInOrder(c: Client) {
    c.Building? ==>
      && Shaped(c.built.moves, c.ledger, Entries(c.request.postings))
      && c.request.postings != [] && FirstError(c.request.postings) == None
  }

  ghost predicate AllInOrder(sys: System) {
    forall client :: client in sys.clients ==> LegsInOrder(sys.clients[client])
  }

  ghost predicate Cancels(st: State) {
    forall ledger, account, asset :: LedgerLaws.NetAgrees(st, ledger, account, asset)
  }

  lemma ReadKeepsOrder(c: Client, books: State)
    requires LegsInOrder(c) && c.Building? && |c.built.moves| < 2 * |c.request.postings|
    ensures LegsInOrder(ReadEnd(c, books))
  {
    hide FirstError;
    var es := Entries(c.request.postings);
    var c' := ReadEnd(c, books);
    forall k | 0 <= k < |c'.built.moves| ensures LegAt(c'.built.moves, c.ledger, es, k) {
      assert k < |c.built.moves| ==> LegAt(c.built.moves, c.ledger, es, k);
    }
  }

  lemma SameBooksCancel(st: State, st': State)
    requires Cancels(st) && SameBooks(st, st')
    ensures Cancels(st')
  {
    forall l, account, asset ensures LedgerLaws.NetAgrees(st', l, account, asset) {
      assert LedgerLaws.NetAgrees(st, l, account, asset);
    }
  }

  lemma FlowsCancel(st: State, st': State, ledger: string, tx: Transaction, flows: seq<Flow>)
    requires Cancels(st)
    requires Flows(st'.moves) == Flows(st.moves) + flows
    requires forall l :: Txs(st', l) == if l == ledger then Txs(st, l) + [tx] else Txs(st, l)
    requires Shaped(flows, ledger, Entries(tx.postings)) && |flows| == 2 * |tx.postings|
    ensures Cancels(st')
  {
    forall l, account, asset ensures LedgerLaws.NetAgrees(st', l, account, asset) {
      assert LedgerLaws.NetAgrees(st, l, account, asset);
      ShapedNet(flows, ledger, Entries(tx.postings), l, account, asset);
      NetsAppend(Flows(st.moves), flows, l, account, asset);
      LedgerLaws.ReplayedIf(Txs(st, l), tx, l == ledger, account, asset);
      assert Txs(st', l) == if l == ledger then Txs(st, l) + [tx] else Txs(st, l);
    }
  }

  lemma InsertCancels(st: State, c: Client)
    requires Cancels(st) && LegsInOrder(c) && c.Building? && |c.built.moves| == 2 * |c.request.postings|
    ensures Cancels(InsertBuilt(st, c))
  {
    hide Cancels, FirstError;
    var ps := c.request.postings;
    var tx := NumberTransaction(st, c.ledger, c.request.reference, ps);
    InsertAppends(st, c.ledger, c.request.reference, ps, c.built.moves);
    NumberingKeepsErrors(ps, tx.id, tx.id);
    FlowsCancel(st, InsertBuilt(st, c), c.ledger, tx, c.built.moves);
  }

  lemma StepCancels(unique: bool, sys: System, a: Action)
    requires AllInOrder(sys) && Cancels(sys.books)
    ensures AllInOrder(Step(unique, sys, a)) && Cancels(Step(unique, sys, a).books)
  {
    match a {
      case Begin(client, ledger, req) =>
      case Ensure(client, address) =>
        if client in sys.clients {
          PutAccountKeepsBooks(sys.books, sys.clients[client].ledger, address, "unknown");
          SameBooksCancel(sys.books, Step(unique, sys, a).books);
        }
      case Read(client) =>
        if CanRead(sys, client) {
          ReadKeepsOrder(sys.clients[client], sys.books);
        }
      case Insert(client) =>
        if CanInsert(sys, client) {
          InsertCancels(sys.books, sys.clients[client]);
        }
      case Log(client) =>
        SameBooksCancel(sys.books, Step(unique, sys, a).books);
      case Stop(client) =>
    }
  }

  /** Over either store, however the store calls interleave and wherever clients stop, the moves of every account net
      to the replay of the inserted transactions, and every ledger's moves cancel in every asset. */
  lemma {:induction false} MovesAlwaysCancel(unique: bool, actions: seq<Action>)
    ensures AllInOrder(Steps(unique, actions)) && Cancels(Steps(unique, actions).books)
  {
    if actions == [] {
      assert Flows(EMPTY.moves) == [];
      assert forall l :: Txs(EMPTY, l) == [];
    } else {
      var n := |actions| - 1;
      MovesAlwaysCancel(unique, actions[..n]);
      StepCancels(unique, Steps(unique, actions[..n]), actions[n]);
    }
  }
}
