/** The double-entry ledger as functions on its state: what each service call returns and leaves behind. */
module Ledger {
  import opened Outcomes
  import opened Decimal
  import opened Text
  import opened LedgerTypes
  import opened Volumes
  import opened Effects

  datatype State = State(
    accounts: map<string, Account>,
    transactions: map<string, seq<Transaction>>,
    postings: map<int, seq<Posting>>,
    moves: seq<Move>,
    logs: seq<LogEntry>,
    nextID: int)

  const EMPTY := State(map[], map[], map[], [], [], 0)

  function Txs(st: State, ledger: string): seq<Transaction> {
    if ledger in st.transactions then st.transactions[ledger] else []
  }

  /*** Reading stored strings as integers ***/

  function EntryOf(p: Posting): Entry {
    Entry(p.source, p.destination, p.asset, Value(p.amount))
  }

  function Entries(ps: seq<Posting>): seq<Entry> {
    seq(|ps|, i requires 0 <= i < |ps| => EntryOf(ps[i]))
  }

  function FlowOf(m: Move): Flow {
    Flow(m.ledger, m.account, m.asset, m.isSource, Value(m.amount), Value(m.postInputs), Value(m.postOutputs))
  }

  function Flows(moves: seq<Move>): seq<Flow> {
    seq(|moves|, i requires 0 <= i < |moves| => FlowOf(moves[i]))
  }

  function PrintedMove(f: Flow): Move {
    Move(0, f.ledger, 0, 0, f.account, f.asset, Print(f.amount), f.isSource, Print(f.ins), Print(f.outs))
  }

  function PrintedMoves(flows: seq<Flow>): seq<Move> {
    seq(|flows|, i requires 0 <= i < |flows| => PrintedMove(flows[i]))
  }

  /*** Validation ***/

  function PostingError(p: Posting, index: nat): Option<Error> {
    if !ValidAddress(p.source) then Some(BadSource(index))
    else if !ValidAddress(p.destination) then Some(BadDestination(index))
    else if p.source == p.destination then Some(SameAccount(index))
    else if p.asset == "" then Some(BadAsset(index))
    else if Parse(p.amount) == None || Value(p.amount) <= 0 then Some(BadAmount(index))
    else None
  }

  /** The error of the first posting that has one. */
  function FirstError(ps: seq<Posting>): Option<Error> {
    if ps == [] then None
    else
      var earlier := FirstError(ps[..|ps| - 1]);
      if earlier.Some? then earlier else PostingError(ps[|ps| - 1], |ps| - 1)
  }

  /** What validation guarantees of every posting it lets through. */
  predicate Acceptable(p: Entry) {
    ValidAddress(p.source) && ValidAddress(p.destination) && p.source != p.destination && p.asset != "" && p.amount > 0
  }

  /*** Accounts ***/

  function AccountKey(ledger: string, address: string): string {
    ledger + ":" + address
  }

  function PutAccount(st: State, ledger: string, address: string, kind: string): State {
    var key := AccountKey(ledger, address);
    if key in st.accounts then st
    else st.(accounts := st.accounts[key := Account(st.nextID + 1, ledger, address, kind)], nextID := st.nextID + 1)
  }

  predicate ValidKind(kind: string) {
    kind in ["asset", "liability", "equity", "revenue", "expense", "unknown"]
  }

  function CreateAccount(st: State, ledger: string, address: string, kind: string): (State, Result<Account>) {
    if !ValidAddress(address) then (st, Err(BadAddress))
    else if !ValidKind(kind) then (st, Err(BadAccountType))
    else
      var st' := PutAccount(st, ledger, address, kind);
      (st', Ok(Account(st'.accounts[AccountKey(ledger, address)].id, ledger, address, kind)))
  }

  function PutEnds(st: State, ledger: string, ps: seq<Posting>): State {
    if ps == [] then st
    else
      var p, earlier := ps[|ps| - 1], PutEnds(st, ledger, ps[..|ps| - 1]);
      PutAccount(PutAccount(earlier, ledger, p.source, "unknown"), ledger, p.destination, "unknown")
  }

  /*** Posting ***/

  function FindReference(txs: seq<Transaction>, reference: string): Option<Transaction> {
    if txs == [] then None
    else
      var earlier := FindReference(txs[..|txs| - 1], reference);
      if earlier.Some? then earlier
      else if txs[|txs| - 1].reference == reference then Some(txs[|txs| - 1])
      else None
  }

  function NumberPostings(ps: seq<Posting>, last: int, txId: int): seq<Posting> {
    seq(|ps|, i requires 0 <= i < |ps| => ps[i].(id := last + 1 + i, txId := txId))
  }

  function NumberMoves(moves: seq<Move>, last: int, txId: int): seq<Move> {
    seq(|moves|, i requires 0 <= i < |moves| => moves[i].(id := last + 1 + i, txId := txId))
  }

  function NumberTransaction(st: State, ledger: string, reference: string, ps: seq<Posting>): Transaction {
    Transaction(st.nextID + 1, ledger, reference, NumberPostings(ps, st.nextID + 1, st.nextID + 1), false)
  }

  /** InsertTransaction of the in-memory store: one id for the transaction, then its postings, then its moves. */
  function Insert(st: State, ledger: string, reference: string, ps: seq<Posting>, moves: seq<Move>): State {
    var tx := NumberTransaction(st, ledger, reference, ps);
    st.(transactions := st.transactions[ledger := Txs(st, ledger) + [tx]],
        postings := st.postings[tx.id := tx.postings],
        moves := st.moves + NumberMoves(moves, tx.id + |ps|, tx.id),
        nextID := tx.id + |ps| + |moves|)
  }

  function BuildMoves(st: State, ledger: string, ps: seq<Posting>): seq<Move> {
    PrintedMoves(NewFlows(Flows(st.moves), ledger, Entries(ps)))
  }

  function AddLog(st: State, ledger: string, tx: Transaction): State {
    st.(logs := st.logs + [LogEntry(st.nextID + 1, ledger, tx.id, tx.reference, |tx.postings|)],
        nextID := st.nextID + 1)
  }

  /** A request that passes every check and repeats no reference. */
  function Commit(st: State, ledger: string, req: Request): (State, Transaction) {
    var ready := PutEnds(st, ledger, req.postings);
    var tx := NumberTransaction(ready, ledger, req.reference, req.postings);
    (AddLog(Insert(ready, ledger, req.reference, req.postings, BuildMoves(st, ledger, req.postings)), ledger, tx), tx)
  }

  predicate Repeats(st: State, ledger: string, req: Request) {
    req.reference != "" && FindReference(Txs(st, ledger), req.reference).Some?
  }

  function Post(st: State, ledger: string, req: Request): (State, Result<Transaction>) {
    if req.postings == [] then (st, Err(NoPostings))
    else if Repeats(st, ledger, req) then (st, Ok(FindReference(Txs(st, ledger), req.reference).value))
    else if FirstError(req.postings).Some? then (st, Err(FirstError(req.postings).value))
    else
      var (st', tx) := Commit(st, ledger, req);
      (st', Ok(tx))
  }

  /*** Reverting ***/

  function FindId(txs: seq<Transaction>, id: int): (r: Option<nat>)
    ensures r.Some? ==> r.value < |txs| && txs[r.value].id == id
  {
    if txs == [] then None
    else
      var earlier := FindId(txs[..|txs| - 1], id);
      if earlier.Some? then earlier
      else if txs[|txs| - 1].id == id then Some(|txs| - 1)
      else None
  }

  function RevertReference(id: int): string {
    "revert:" + Print(id)
  }

  function SwapPostings(ps: seq<Posting>): seq<Posting> {
    seq(|ps|, i requires 0 <= i < |ps| => Posting(0, 0, ps[i].destination, ps[i].source, ps[i].asset, ps[i].amount))
  }

  function MarkReverted(st: State, ledger: string, id: int): (State, Result<()>) {
    var txs := Txs(st, ledger);
    match FindId(txs, id)
    case None => (st, Err(TransactionNotFound(id)))
    case Some(i) =>
      if txs[i].reverted then (st, Err(AlreadyReverted(id)))
      else (st.(transactions := st.transactions[ledger := txs[i := txs[i].(reverted := true)]]), Ok(()))
  }

  function Revert(st: State, ledger: string, id: int): (State, Result<Transaction>) {
    var txs := Txs(st, ledger);
    match FindId(txs, id)
    case None => (st, Err(TransactionNotFound(id)))
    case Some(i) =>
      if txs[i].reverted then (st, Err(AlreadyReverted(id)))
      else
        var (posted, reversal) := Post(st, ledger, Request(RevertReference(id), SwapPostings(txs[i].postings)));
        match reversal
        case Err(e) => (posted, Err(ReversalFailed(e)))
        case Ok(tx) =>
          var (marked, done) := MarkReverted(posted, ledger, id);
          match done
          case Err(e) => (marked, Err(e))
          case Ok(_) => (marked, Ok(tx))
  }

  /*** Reading ***/

  function LatestMove(moves: seq<Move>, ledger: string, account: string, asset: string): Option<Move> {
    if moves == [] then None
    else
      var m := moves[|moves| - 1];
      if m.ledger == ledger && m.account == account && m.asset == asset then Some(m)
      else LatestMove(moves[..|moves| - 1], ledger, account, asset)
  }

  /** The balance of an account as the ledger reports it. */
  function Reported(st: State, ledger: string, account: string, asset: string): int {
    LatestNet(Flows(st.moves), ledger, account, asset)
  }

  /** The balance according to a replay of the stored transactions. */
  function Replayed(txs: seq<Transaction>, account: string, asset: string): int {
    if txs == [] then 0
    else Replayed(txs[..|txs| - 1], account, asset) + NetOf(Entries(txs[|txs| - 1].postings), account, asset)
  }

  function NewestFirst(txs: seq<Transaction>): seq<Transaction> {
    seq(|txs|, i requires 0 <= i < |txs| => txs[|txs| - 1 - i])
  }

  function Page(txs: seq<Transaction>, limit: nat, offset: nat): seq<Transaction> {
    if offset >= |txs| then []
    else NewestFirst(txs)[offset..if offset + limit > |txs| then |txs| else offset + limit]
  }

  /*** Runs of calls ***/

  datatype Op =
    | AccountOp(ledger: string, address: string, kind: string)
    | PostOp(ledger: string, request: Request)
    | RevertOp(ledger: string, id: int)

  function Apply(st: State, op: Op): State {
    match op
    case AccountOp(ledger, address, kind) => CreateAccount(st, ledger, address, kind).0
    case PostOp(ledger, request) => Post(st, ledger, request).0
    case RevertOp(ledger, id) => Revert(st, ledger, id).0
  }

  function Run(ops: seq<Op>): State {
    if ops == [] then EMPTY else Apply(Run(ops[..|ops| - 1]), ops[|ops| - 1])
  }

  predicate OnlyPosts(ops: seq<Op>) {
    forall i :: 0 <= i < |ops| ==> ops[i].PostOp?
  }
}

/** How one call changes the books: nothing, one appended transaction with its moves, or one reverted mark. */
module LedgerSteps {
  import opened Outcomes
  import opened Decimal
  import opened LedgerTypes
  import opened Volumes
  import opened Ledger

  ghost predicate SameBooks(st: State, st': State) {
    && st'.moves == st.moves
    && st'.nextID >= st.nextID
    && forall l :: Txs(st', l) == Txs(st, l)
  }

  /** The three amounts of a stored move are printed integers. */
  predicate Canonical(m: Move) {
    && m.amount == Print(Value(m.amount))
    && m.postInputs == Print(Value(m.postInputs))
    && m.postOutputs == Print(Value(m.postOutputs))
  }

  predicate AllCanonical(moves: seq<Move>) {
    forall i :: 0 <= i < |moves| ==> Canonical(moves[i])
  }

  ghost predicate Posted(st: State, st': State, ledger: string, tx: Transaction) {
    && Flows(st'.moves) == Flows(st.moves) + NewFlows(Flows(st.moves), ledger, Entries(tx.postings))
    && st.nextID < tx.id <= st'.nextID
    && tx.ledger == ledger && !tx.reverted
    && tx.postings != [] && FirstError(tx.postings) == None
    && (AllCanonical(st.moves) ==> AllCanonical(st'.moves))
    && (tx.reference == "" || FindReference(Txs(st, ledger), tx.reference) == None)
    && forall l :: Txs(st', l) == if l == ledger then Txs(st, l) + [tx] else Txs(st, l)
  }

  ghost predicate Marked(st: State, st': State, ledger: string, i: nat) {
    && st'.moves == st.moves
    && st'.nextID == st.nextID
    && i < |Txs(st, ledger)| && !Txs(st, ledger)[i].reverted
    && forall l :: Txs(st', l) ==
         if l == ledger then Txs(st, l)[i := Txs(st, l)[i].(reverted := true)] else Txs(st, l)
  }

  ghost predicate PostStep(st: State, st': State, ledger: string) {
    SameBooks(st, st') || exists tx :: Posted(st, st', ledger, tx)
  }

  ghost predicate MarkStep(st: State, st': State, ledger: string) {
    SameBooks(st, st') || exists i: nat :: Marked(st, st', ledger, i)
  }

  lemma FlowsAppend(a: seq<Move>, b: seq<Move>)
    ensures Flows(a + b) == Flows(a) + Flows(b)
  {
  }

  lemma PrintedFlow(f: Flow)
    ensures FlowOf(PrintedMove(f)) == f && Canonical(PrintedMove(f))
  {
    ParsePrint(f.amount);
    ParsePrint(f.ins);
    ParsePrint(f.outs);
  }

  /** Storing built moves and reading them back loses nothing. */
  lemma PrintedFlows(flows: seq<Flow>, last: int, txId: int)
    ensures Flows(NumberMoves(PrintedMoves(flows), last, txId)) == flows
    ensures AllCanonical(NumberMoves(PrintedMoves(flows), last, txId))
  {
    forall i | 0 <= i < |flows|
      ensures FlowOf(NumberMoves(PrintedMoves(flows), last, txId)[i]) == flows[i]
      ensures Canonical(NumberMoves(PrintedMoves(flows), last, txId)[i])
    {
      PrintedFlow(flows[i]);
    }
  }

  lemma PutAccountKeepsBooks(st: State, ledger: string, address: string, kind: string)
    ensures SameBooks(st, PutAccount(st, ledger, address, kind))
    ensures PutAccount(st, ledger, address, kind).transactions == st.transactions
    ensures PutAccount(st, ledger, address, kind).logs == st.logs
    ensures PutAccount(st, ledger, address, kind).postings == st.postings
  {
  }

  lemma {:induction false} PutEndsKeepsBooks(st: State, ledger: string, ps: seq<Posting>)
    ensures SameBooks(st, PutEnds(st, ledger, ps))
    ensures PutEnds(st, ledger, ps).transactions == st.transactions
    ensures PutEnds(st, ledger, ps).logs == st.logs
    ensures PutEnds(st, ledger, ps).postings == st.postings
  {
    if ps != [] {
      var p, earlier := ps[|ps| - 1], PutEnds(st, ledger, ps[..|ps| - 1]);
      PutEndsKeepsBooks(st, ledger, ps[..|ps| - 1]);
      PutAccountKeepsBooks(earlier, ledger, p.source, "unknown");
      PutAccountKeepsBooks(PutAccount(earlier, ledger, p.source, "unknown"), ledger, p.destination, "unknown");
    }
  }

  lemma {:induction false} NumberingKeepsErrors(ps: seq<Posting>, last: int, txId: int)
    ensures FirstError(NumberPostings(ps, last, txId)) == FirstError(ps)
    ensures Entries(NumberPostings(ps, last, txId)) == Entries(ps)
  {
    if ps != [] {
      NumberingKeepsErrors(ps[..|ps| - 1], last, txId);
      assert NumberPostings(ps, last, txId)[..|ps| - 1] == NumberPostings(ps[..|ps| - 1], last, txId);
    }
  }

  lemma AppendsFlows(moves: seq<Move>, flows: seq<Flow>, last: int, txId: int)
    ensures var all := moves + NumberMoves(PrintedMoves(flows), last, txId);
      Flows(all) == Flows(moves) + flows && (AllCanonical(moves) ==> AllCanonical(all))
  {
    var more := NumberMoves(PrintedMoves(flows), last, txId);
    PrintedFlows(flows, last, txId);
    FlowsAppend(moves, more);
  }

  lemma InsertAppends(st: State, ledger: string, reference: string, ps: seq<Posting>, flows: seq<Flow>)
    ensures var st' := Insert(st, ledger, reference, ps, PrintedMoves(flows));
      && Flows(st'.moves) == Flows(st.moves) + flows
      && st.nextID < st'.nextID
      && (AllCanonical(st.moves) ==> AllCanonical(st'.moves))
      && forall l :: Txs(st', l) ==
           if l == ledger then Txs(st, l) + [NumberTransaction(st, ledger, reference, ps)] else Txs(st, l)
  {
    hide AllCanonical, Flows, NumberMoves;
    var tx := NumberTransaction(st, ledger, reference, ps);
    AppendsFlows(st.moves, flows, tx.id + |ps|, tx.id);
  }

  lemma InsertPosts(st: State, ready: State, ledger: string, reference: string, ps: seq<Posting>)
    requires SameBooks(st, ready)
    requires ps != [] && FirstError(ps) == None
    requires reference == "" || FindReference(Txs(st, ledger), reference) == None
    ensures Posted(st, Insert(ready, ledger, reference, ps, BuildMoves(st, ledger, ps)), ledger,
                   NumberTransaction(ready, ledger, reference, ps))
  {
    var tx := NumberTransaction(ready, ledger, reference, ps);
    NumberingKeepsErrors(ps, tx.id, tx.id);
    InsertAppends(ready, ledger, reference, ps, NewFlows(Flows(st.moves), ledger, Entries(ps)));
  }

  lemma PostedThenSame(st: State, mid: State, st': State, ledger: string, tx: Transaction)
    requires Posted(st, mid, ledger, tx) && SameBooks(mid, st')
    ensures Posted(st, st', ledger, tx)
  {
  }

  /** A fresh, valid request appends exactly one transaction carrying its postings. */
  lemma CommitPosts(st: State, ledger: string, req: Request)
    requires req.postings != [] && !Repeats(st, ledger, req) && FirstError(req.postings) == None
    ensures Posted(st, Commit(st, ledger, req).0, ledger, Commit(st, ledger, req).1)
    ensures Commit(st, ledger, req).1.reference == req.reference
    ensures Entries(Commit(st, ledger, req).1.postings) == Entries(req.postings)
  {
    var ready := PutEnds(st, ledger, req.postings);
    PutEndsKeepsBooks(st, ledger, req.postings);
    var tx := NumberTransaction(ready, ledger, req.reference, req.postings);
    NumberingKeepsErrors(req.postings, tx.id, tx.id);
    InsertPosts(st, ready, ledger, req.reference, req.postings);
    var inserted := Insert(ready, ledger, req.reference, req.postings, BuildMoves(st, ledger, req.postings));
    PostedThenSame(st, inserted, AddLog(inserted, ledger, tx), ledger, tx);
  }

  lemma PostCases(st: State, ledger: string, req: Request)
    ensures var (st', r) := Post(st, ledger, req);
      || (st' == st &&
          (r.Ok? ==> Repeats(st, ledger, req) && r.value == FindReference(Txs(st, ledger), req.reference).value))
      || (!Repeats(st, ledger, req) && r.Ok? && Posted(st, st', ledger, r.value) &&
          r.value.reference == req.reference && Entries(r.value.postings) == Entries(req.postings))
  {
    if req.postings != [] && !Repeats(st, ledger, req) && FirstError(req.postings) == None {
      CommitPosts(st, ledger, req);
    }
  }

  lemma MarkCases(st: State, ledger: string, id: int)
    ensures var (st', r) := MarkReverted(st, ledger, id);
      if r.Ok? then FindId(Txs(st, ledger), id).Some? && Marked(st, st', ledger, FindId(Txs(st, ledger), id).value)
      else st' == st
  {
  }

  /** Every call is at most one posted transaction followed by at most one mark. */
  lemma ApplySteps(st: State, op: Op) returns (mid: State)
    ensures PostStep(st, mid, op.ledger) && MarkStep(mid, Apply(st, op), op.ledger)
  {
    match op {
      case AccountOp(ledger, address, kind) =>
        PutAccountKeepsBooks(st, ledger, address, kind);
        mid := Apply(st, op);
      case PostOp(ledger, request) =>
        PostCases(st, ledger, request);
        mid := Apply(st, op);
      case RevertOp(ledger, id) =>
        var found := FindId(Txs(st, ledger), id);
        if found.None? || Txs(st, ledger)[found.value].reverted {
          mid := st;
        } else {
          var request := Request(RevertReference(id), SwapPostings(Txs(st, ledger)[found.value].postings));
          PostCases(st, ledger, request);
          mid := Post(st, ledger, request).0;
          MarkCases(mid, ledger, id);
        }
    }
  }
}
