/** Laws that compare runs or relate several calls: errors, reverts, retries, ledgers side by side, paging. */
module LedgerRuns {
  import opened Outcomes
  import opened Decimal
  import opened Text
  import opened LedgerTypes
  import opened Volumes
  import opened Effects
  import opened Ledger
  import opened LedgerSteps
  import opened LedgerLaws

  /*** Errors and reverts ***/

  lemma SwapAcceptable(ps: seq<Posting>)
    requires FirstError(ps) == None
    ensures FirstError(SwapPostings(ps)) == None
    ensures Entries(SwapPostings(ps)) == Swap(Entries(ps))
  {
    NoErrorMeaning(ps);
    var swapped := SwapPostings(ps);
    forall i | 0 <= i < |swapped| ensures PostingError(swapped[i], i) == None {
      assert PostingError(ps[i], i) == None;
    }
    NoErrorMeaning(swapped);
  }

  /** A reversal request on well-kept books is never refused. */
  lemma ReversalPosts(st: State, ledger: string, i: nat, id: int)
    requires WellKept(st, ledger) && i < |Txs(st, ledger)|
    ensures var req := Request(RevertReference(id), SwapPostings(Txs(st, ledger)[i].postings));
      Post(st, ledger, req).1.Ok?
  {
    var txs := Txs(st, ledger);
    assert Valid(txs[i], ledger, st.nextID);
    SwapAcceptable(txs[i].postings);
    assert |SwapPostings(txs[i].postings)| == |txs[i].postings|;
  }

  lemma {:induction false} FindIdAppend(txs: seq<Transaction>, tx: Transaction, id: int)
    requires FindId(txs, id).Some?
    ensures FindId(txs + [tx], id) == FindId(txs, id)
  {
    assert (txs + [tx])[..|txs|] == txs;
  }

  /** The transaction list after a successful revert: the reversal appended unless its reference was
      already taken, and the original marked. */
  function RevertedList(txs: seq<Transaction>, i: nat, reversal: seq<Transaction>): seq<Transaction>
    requires i < |txs|
  {
    (txs + reversal)[i := txs[i].(reverted := true)]
  }

  ghost predicate IsReversal(tx: Transaction, original: Transaction) {
    && tx.reference == RevertReference(original.id)
    && Entries(tx.postings) == Swap(Entries(original.postings))
    && !tx.reverted && tx.id > original.id
  }

  lemma RevertCases(st: State, ledger: string, id: int)
    requires Books(st)
    ensures var (st', r) := Revert(st, ledger, id); var txs, found := Txs(st, ledger), FindId(Txs(st, ledger), id);
      && (r.Ok? <==> found.Some? && !txs[found.value].reverted)
      && (r.Err? ==> st' == st)
      && (r.Ok? && FindReference(txs, RevertReference(id)).Some? ==>
            Txs(st', ledger) == RevertedList(txs, found.value, []) && st'.moves == st.moves &&
            r.value == FindReference(txs, RevertReference(id)).value)
      && (r.Ok? && FindReference(txs, RevertReference(id)) == None ==>
            Txs(st', ledger) == RevertedList(txs, found.value, [r.value]) && IsReversal(r.value, txs[found.value]))
  {
    assert WellKept(st, ledger);
    var txs, found := Txs(st, ledger), FindId(Txs(st, ledger), id);
    if found.Some? && !txs[found.value].reverted {
      var i := found.value;
      var req := Request(RevertReference(id), SwapPostings(txs[i].postings));
      assert Valid(txs[i], ledger, st.nextID);
      SwapAcceptable(txs[i].postings);
      ReversalPosts(st, ledger, i, id);
      PostCases(st, ledger, req);
      var (posted, r) := Post(st, ledger, req);
      if posted == st {
        assert txs + [] == txs;
      } else {
        FindIdAppend(txs, r.value, id);
      }
      MarkCases(posted, ledger, id);
    }
  }

  /** All or nothing: a call that returns an error changes nothing at all. */
  lemma ErrorsChangeNothing(ops: seq<Op>, ledger: string, req: Request, id: int)
    ensures Post(Run(ops), ledger, req).1.Err? ==> Post(Run(ops), ledger, req).0 == Run(ops)
    ensures Revert(Run(ops), ledger, id).1.Err? ==> Revert(Run(ops), ledger, id).0 == Run(ops)
  {
    PostCases(Run(ops), ledger, req);
    RunKeepsBooks(ops);
    RevertCases(Run(ops), ledger, id);
  }

  /** In a reachable state a revert succeeds exactly on a stored transaction not yet marked. */
  lemma RevertSucceedsIff(ops: seq<Op>, ledger: string, id: int)
    ensures Revert(Run(ops), ledger, id).1.Ok? <==>
      exists i :: 0 <= i < |Txs(Run(ops), ledger)| && Txs(Run(ops), ledger)[i].id == id &&
        !Txs(Run(ops), ledger)[i].reverted
  {
    RunKeepsBooks(ops);
    RevertCases(Run(ops), ledger, id);
    assert WellKept(Run(ops), ledger);
    FindIdMeaning(Txs(Run(ops), ledger), id);
  }

  lemma RevertedListReplay(txs: seq<Transaction>, i: nat, reversal: seq<Transaction>, account: string, asset: string)
    requires i < |txs| && |reversal| <= 1
    requires reversal != [] ==> Entries(reversal[0].postings) == Swap(Entries(txs[i].postings))
    ensures Replayed(RevertedList(txs, i, reversal), account, asset) == Replayed(txs, account, asset) -
            if reversal == [] then 0 else NetOf(Entries(txs[i].postings), account, asset)
  {
    ReplayedIgnoresMarks(RevertedList(txs, i, reversal), txs + reversal, account, asset);
    if reversal == [] {
      assert txs + reversal == txs;
    } else {
      assert txs + reversal == txs + [reversal[0]];
      ReplayedAppend(txs, reversal[0], account, asset);
      SwapNegates(Entries(txs[i].postings), account, asset);
    }
  }

  /** The exact effect of a successful revert: it takes back the original's net effect everywhere if the reference
      revert:<id> was free, and moves nothing (but still marks) if somebody had already used it. */
  lemma RevertEffect(ops: seq<Op>, ledger: string, id: int, account: string, asset: string)
    requires Revert(Run(ops), ledger, id).1.Ok?
    ensures FindId(Txs(Run(ops), ledger), id).Some?
    ensures
      var st, st' := Run(ops), Revert(Run(ops), ledger, id).0;
      var txs, i := Txs(st, ledger), FindId(Txs(st, ledger), id).value;
      var taken := FindReference(txs, RevertReference(id)).Some?;
      && i < |Txs(st', ledger)| && Txs(st', ledger)[i] == txs[i].(reverted := true)
      && |Txs(st', ledger)| == |txs| + (if taken then 0 else 1)
      && Replayed(Txs(st', ledger), account, asset) ==
         Replayed(txs, account, asset) - (if taken then 0 else NetOf(Entries(txs[i].postings), account, asset))
  {
    var st := Run(ops);
    RunKeepsBooks(ops);
    RevertCases(st, ledger, id);
    var txs, i := Txs(st, ledger), FindId(Txs(st, ledger), id).value;
    if FindReference(txs, RevertReference(id)).Some? {
      RevertedListReplay(txs, i, [], account, asset);
    } else {
      RevertedListReplay(txs, i, [Revert(st, ledger, id).1.value], account, asset);
    }
  }

  lemma RunOneMore(ops: seq<Op>, op: Op)
    ensures Run(ops + [op]) == Apply(Run(ops), op)
  {
    assert (ops + [op])[..|ops|] == ops;
  }

  ghost predicate Known(st: State, ledger: string, reference: string, id: int) {
    var found := FindReference(Txs(st, ledger), reference);
    found.Some? && found.value.id == id
  }

  lemma AnsweredIsKnown(st: State, ledger: string, req: Request)
    requires Post(st, ledger, req).1.Ok? && req.reference != ""
    ensures Known(Post(st, ledger, req).0, ledger, req.reference, Post(st, ledger, req).1.value.id)
  {
    PostCases(st, ledger, req);
    if !Repeats(st, ledger, req) {
      var txs, tx := Txs(st, ledger), Post(st, ledger, req).1.value;
      assert (txs + [tx])[..|txs|] == txs;
    }
  }

  /** Whenever somebody else's acceptable post uses revert:<id> before the transaction is reverted, the revert succeeds
      and marks it, and moves no money on any account. */
  lemma ForgedReference(ops: seq<Op>, ledger: string, i: nat, req: Request, account: string, asset: string)
    requires i < |Txs(Run(ops), ledger)| && !Txs(Run(ops), ledger)[i].reverted
    requires req.reference == RevertReference(Txs(Run(ops), ledger)[i].id)
    requires req.postings != [] && FirstError(req.postings) == None
    ensures var id, st := Txs(Run(ops), ledger)[i].id, Post(Run(ops), ledger, req).0;
      var (st', r) := Revert(st, ledger, id);
      && r.Ok? && i < |Txs(st, ledger)| == |Txs(st', ledger)| && Txs(st', ledger)[i].id == id &&
        Txs(st', ledger)[i].reverted
      && Replayed(Txs(st', ledger), account, asset) == Replayed(Txs(st, ledger), account, asset)
  {
    var id, st := Txs(Run(ops), ledger)[i].id, Post(Run(ops), ledger, req).0;
    var more := ops + [PostOp(ledger, req)];
    RunOneMore(ops, PostOp(ledger, req));
    AnsweredIsKnown(Run(ops), ledger, req);
    PostCases(Run(ops), ledger, req);
    assert Txs(st, ledger)[i] == Txs(Run(ops), ledger)[i];
    RunKeepsBooks(more);
    assert WellKept(st, ledger);
    FindIdMeaning(Txs(st, ledger), id);
    RevertSucceedsIff(more, ledger, id);
    RevertEffect(more, ledger, id, account, asset);
  }

  function OnePosting(destination: string, amount: int): seq<Posting> {
    [Posting(0, 0, "world", destination, "USD", Print(amount))]
  }

  lemma OnePostingPasses(destination: string, amount: int)
    requires destination != "" && ColonFree(destination) && destination != "world" && amount > 0
    ensures FirstError(OnePosting(destination, amount)) == None
    ensures Entries(OnePosting(destination, amount)) == [Entry("world", destination, "USD", amount)]
  {
    ParsePrint(amount);
    ColonFreeIsValid("world");
    ColonFreeIsValid(destination);
    var ps := OnePosting(destination, amount);
    assert ps[..0] == [];
    assert FirstError(ps) == PostingError(ps[0], 0);
  }

  /** The first transaction of a fresh store, between two new accounts, has id 3. */
  lemma FirstTransaction(ledger: string, destination: string, amount: int)
    requires destination != "" && ColonFree(destination) && |destination| < |"world"| && amount > 0
    ensures var st := Post(EMPTY, ledger, Request("", OnePosting(destination, amount))).0;
      |Txs(st, ledger)| == 1 && Txs(st, ledger)[0].id == 3 && !Txs(st, ledger)[0].reverted &&
      Entries(Txs(st, ledger)[0].postings) == [Entry("world", destination, "USD", amount)]
  {
    var req := Request("", OnePosting(destination, amount));
    OnePostingPasses(destination, amount);
    assert Txs(EMPTY, ledger) == [] && req.postings[..0] == [];
    var ready := PutEnds(EMPTY, ledger, req.postings);
    assert |AccountKey(ledger, "world")| != |AccountKey(ledger, destination)|;
    assert PutEnds(EMPTY, ledger, req.postings[..0]) == EMPTY;
    assert ready.nextID == 2;
    CommitPosts(EMPTY, ledger, req);
  }

  lemma PostedBalance(st: State, ledger: string, req: Request, account: string, asset: string)
    requires Post(st, ledger, req).1.Ok?
    ensures Replayed(Txs(Post(st, ledger, req).0, ledger), account, asset) ==
      Replayed(Txs(st, ledger), account, asset) +
      if Repeats(st, ledger, req) then 0 else NetOf(Entries(req.postings), account, asset)
  {
    PostCases(st, ledger, req);
    if !Repeats(st, ledger, req) {
      ReplayedAppend(Txs(st, ledger), Post(st, ledger, req).1.value, account, asset);
    }
  }

  lemma OneEntryNet(e: Entry, account: string, asset: string)
    ensures NetOf([e], account, asset) == EntryNet(e, account, asset)
  {
    assert [e][..0] == [];
  }

  lemma {:induction false} FirstBalance(txs: seq<Transaction>, e: Entry, account: string)
    requires |txs| == 1 && Entries(txs[0].postings) == [e]
    ensures Replayed(txs, account, e.asset) == EntryNet(e, account, e.asset)
  {
    assert txs[..0] == [];
    OneEntryNet(e, account, e.asset);
  }

  /** The forged post leaves the first payment where it is. */
  lemma ForgedBalance(st: State, ledger: string, req: Request)
    requires |Txs(st, ledger)| == 1 && Entries(Txs(st, ledger)[0].postings) == [Entry("world", "a", "USD", 5)]
    requires req.postings == OnePosting("b", 1)
    ensures Replayed(Txs(Post(st, ledger, req).0, ledger), "a", "USD") == 5
  {
    OnePostingPasses("b", 1);
    PostedBalance(st, ledger, req, "a", "USD");
    FirstBalance(Txs(st, ledger), Entry("world", "a", "USD", 5), "a");
    OneEntryNet(Entry("world", "b", "USD", 1), "a", "USD");
  }

  lemma OneCall(op: Op)
    ensures Run([op]) == Apply(EMPTY, op)
  {
    assert [op][..0] == [];
  }

  /** Such a run on any ledger: 5 is paid to account a, a client posts 1 to account b under revert:3, and the revert of
      transaction 3 succeeds, marks it, and leaves the 5 where they are. */
  lemma ForgedReferenceRun(ledger: string, paid: Op, forged: Op)
    requires paid == PostOp(ledger, Request("", OnePosting("a", 5)))
    requires forged == PostOp(ledger, Request(RevertReference(3), OnePosting("b", 1)))
    ensures var st := Run([paid] + [forged] + [RevertOp(ledger, 3)]);
      && Revert(Run([paid] + [forged]), ledger, 3).1.Ok?
      && Txs(st, ledger) != [] && Txs(st, ledger)[0].id == 3 && Txs(st, ledger)[0].reverted
      && Replayed(Txs(st, ledger), "a", "USD") == 5
  {
    OneCall(paid);
    FirstTransaction(ledger, "a", 5);
    OnePostingPasses("b", 1);
    ForgedReference([paid], ledger, 0, forged.request, "a", "USD");
    RunOneMore([paid], forged);
    RunOneMore([paid] + [forged], RevertOp(ledger, 3));
    ForgedBalance(Run([paid]), ledger, forged.request);
  }

  /*** Retries ***/

  predicate Accepts(op: Op, ledger: string, reference: string) {
    && op.PostOp? && op.ledger == ledger && op.request.reference == reference
    && op.request.postings != [] && FirstError(op.request.postings) == None
  }

  /** Call j left a transaction under this reference: an acceptable post carrying it, or the successful revert it
      names. */
  predicate CarriesIn(ops: seq<Op>, j: nat, ledger: string, reference: string)
    requires j < |ops|
  {
    match ops[j]
    case AccountOp(_, _, _) => false
    case PostOp(_, _) => Accepts(ops[j], ledger, reference)
    case RevertOp(l, id) => l == ledger && reference == RevertReference(id) && Revert(Run(ops[..j]), l, id).1.Ok?
  }

  /** The transaction that call j returned. */
  function Returned(ops: seq<Op>, j: nat): Result<Transaction>
    requires j < |ops| && !ops[j].AccountOp?
  {
    match ops[j]
    case PostOp(ledger, request) => Post(Run(ops[..j]), ledger, request).1
    case RevertOp(ledger, id) => Revert(Run(ops[..j]), ledger, id).1
  }

  /** A post whose non-empty reference an earlier call of the same ledger already carried in. */
  predicate Redundant(earlier: seq<Op>, op: Op) {
    && op.PostOp? && op.request.reference != ""
    && exists j :: 0 <= j < |earlier| && CarriesIn(earlier, j, op.ledger, op.request.reference)
  }

  function Prune(ops: seq<Op>): seq<Op> {
    if ops == [] then []
    else
      var front := Prune(ops[..|ops| - 1]);
      if Redundant(ops[..|ops| - 1], ops[|ops| - 1]) then front else front + [ops[|ops| - 1]]
  }

  lemma {:induction false} FindReferenceMarked(txs: seq<Transaction>, i: nat, reference: string)
    requires i < |txs|
    ensures var a, b := FindReference(txs, reference), FindReference(txs[i := txs[i].(reverted := true)], reference);
      a.Some? == b.Some? && (a.Some? ==> a.value.id == b.value.id)
  {
    var txs' := txs[i := txs[i].(reverted := true)];
    if i < |txs| - 1 {
      FindReferenceMarked(txs[..|txs| - 1], i, reference);
      assert txs'[..|txs| - 1] == txs[..|txs| - 1][i := txs[i].(reverted := true)];
    } else {
      assert txs'[..|txs| - 1] == txs[..|txs| - 1];
    }
  }

  lemma KnownStays(st: State, mid: State, st': State, l: string, ledger: string, reference: string, id: int)
    requires Known(st, ledger, reference, id)
    requires PostStep(st, mid, l) && MarkStep(mid, st', l)
    ensures Known(st', ledger, reference, id)
  {
    if !SameBooks(st, mid) {
      var tx :| Posted(st, mid, l, tx);
      assert (Txs(st, ledger) + [tx])[..|Txs(st, ledger)|] == Txs(st, ledger);
      assert Txs(mid, ledger) == if ledger == l then Txs(st, ledger) + [tx] else Txs(st, ledger);
    }
    assert Known(mid, ledger, reference, id);
    if !SameBooks(mid, st') {
      var i: nat :| Marked(mid, st', l, i);
      FindReferenceMarked(Txs(mid, l), i, reference);
    }
  }

  lemma RevertedIsKnown(st: State, ledger: string, id: int)
    requires Revert(st, ledger, id).1.Ok?
    ensures Known(Revert(st, ledger, id).0, ledger, RevertReference(id), Revert(st, ledger, id).1.value.id)
  {
    var tx := Txs(st, ledger)[FindId(Txs(st, ledger), id).value];
    var req := Request(RevertReference(id), SwapPostings(tx.postings));
    AnsweredIsKnown(st, ledger, req);
    var (mid, r) := Post(st, ledger, req);
    MarkCases(mid, ledger, id);
    KnownStays(mid, mid, Revert(st, ledger, id).0, ledger, ledger, RevertReference(id), r.value.id);
  }

  lemma KnownAfterCall(st: State, op: Op, ledger: string, reference: string, id: int)
    requires Known(st, ledger, reference, id)
    ensures Known(Apply(st, op), ledger, reference, id)
  {
    var mid := ApplySteps(st, op);
    KnownStays(st, mid, Apply(st, op), op.ledger, ledger, reference, id);
  }

  lemma {:induction false} KnownForever(ops: seq<Op>, k: nat, ledger: string, reference: string, id: int)
    requires k <= |ops| && Known(Run(ops[..k]), ledger, reference, id)
    ensures Known(Run(ops), ledger, reference, id)
  {
    if k == |ops| {
      assert ops[..k] == ops;
    } else {
      var front, last := ops[..|ops| - 1], ops[|ops| - 1];
      assert front[..k] == ops[..k];
      KnownForever(front, k, ledger, reference, id);
      KnownAfterCall(Run(front), last, ledger, reference, id);
    }
  }

  lemma RunNext(ops: seq<Op>, j: nat)
    requires j < |ops|
    ensures Run(ops[..j + 1]) == Apply(Run(ops[..j]), ops[j])
  {
    var upTo := ops[..j + 1];
    assert upTo[..|upTo| - 1] == ops[..j];
  }

  lemma CarriedIsKnown(ops: seq<Op>, j: nat, ledger: string, reference: string)
    requires j < |ops| && CarriesIn(ops, j, ledger, reference) && reference != ""
    ensures Returned(ops, j).Ok?
    ensures Known(Apply(Run(ops[..j]), ops[j]), ledger, reference, Returned(ops, j).value.id)
  {
    match ops[j] {
      case PostOp(l, request) => AnsweredIsKnown(Run(ops[..j]), l, request);
      case RevertOp(l, id) => RevertedIsKnown(Run(ops[..j]), l, id);
    }
  }

  /** The call that carried a reference in returns an id that the reference keeps for ever. */
  lemma ReferenceKept(ops: seq<Op>, j: nat, ledger: string, reference: string)
    requires j < |ops| && CarriesIn(ops, j, ledger, reference) && reference != ""
    ensures Returned(ops, j).Ok? && Known(Run(ops), ledger, reference, Returned(ops, j).value.id)
  {
    CarriedIsKnown(ops, j, ledger, reference);
    RunNext(ops, j);
    KnownForever(ops, j + 1, ledger, reference, Returned(ops, j).value.id);
  }

  /** A retry returns the id the first call returned and leaves the store as it is, whether that call was a post or the
      revert whose reference it names. */
  lemma RetryReturnsFirst(ops: seq<Op>, j: nat, ledger: string, req: Request)
    requires j < |ops| && CarriesIn(ops, j, ledger, req.reference) && req.reference != "" && req.postings != []
    ensures Returned(ops, j).Ok?
    ensures var (st', r) := Post(Run(ops), ledger, req);
      st' == Run(ops) && r.Ok? && r.value.id == Returned(ops, j).value.id
  {
    ReferenceKept(ops, j, ledger, req.reference);
  }

  /** Dropping every redundant post leaves the final store identical: accounts, ids, moves and logs. */
  lemma {:induction false} RetriesChangeNothing(ops: seq<Op>)
    ensures Run(Prune(ops)) == Run(ops)
  {
    if ops != [] {
      var front, last := ops[..|ops| - 1], ops[|ops| - 1];
      RetriesChangeNothing(front);
      if Redundant(front, last) {
        var j :| 0 <= j < |front| && CarriesIn(front, j, last.ledger, last.request.reference);
        ReferenceKept(front, j, last.ledger, last.request.reference);
        assert Repeats(Run(front), last.ledger, last.request);
      } else {
        var pruned := Prune(front);
        assert (pruned + [last])[..|pruned|] == pruned;
      }
    }
  }

  /*** Ledgers side by side ***/

  lemma {:induction false} LatestOfOthers(moves: seq<Flow>, added: seq<Flow>, ledger: string, account: string,
                                          asset: string)
    requires forall k :: 0 <= k < |added| ==> !At(ledger, account, asset)(added[k])
    ensures Latest(moves + added, ledger, account, asset) == Latest(moves, ledger, account, asset)
  {
    if added == [] {
      assert moves + added == moves;
    } else {
      assert (moves + added)[..|moves + added| - 1] == moves + added[..|added| - 1];
      LatestOfOthers(moves, added[..|added| - 1], ledger, account, asset);
    }
  }

  lemma PostedElsewhere(st: State, st': State, other: string, tx: Transaction, ledger: string, account: string,
                        asset: string)
    requires other != ledger && Posted(st, st', other, tx)
    ensures LatestVolume(Flows(st'.moves), ledger, account, asset) ==
      LatestVolume(Flows(st.moves), ledger, account, asset)
  {
    var flows, entries := Flows(st.moves), Entries(tx.postings);
    BuildShape(other, entries, Stored(flows, other));
    LatestOfOthers(flows, NewFlows(flows, other, entries), ledger, account, asset);
  }

  lemma CallElsewhere(st: State, mid: State, st': State, other: string, ledger: string, account: string, asset: string)
    requires other != ledger && PostStep(st, mid, other) && MarkStep(mid, st', other)
    ensures Txs(st', ledger) == Txs(st, ledger)
    ensures Reported(st', ledger, account, asset) == Reported(st, ledger, account, asset)
  {
    assert st'.moves == mid.moves;
    if !SameBooks(st, mid) {
      var tx :| Posted(st, mid, other, tx);
      PostedElsewhere(st, mid, other, tx, ledger, account, asset);
    }
  }

  /** A call on one ledger leaves the transactions and reported balances of every other ledger alone. */
  lemma OtherLedgersUntouched(st: State, op: Op, ledger: string, account: string, asset: string)
    requires op.ledger != ledger
    ensures Txs(Apply(st, op), ledger) == Txs(st, ledger)
    ensures Reported(Apply(st, op), ledger, account, asset) == Reported(st, ledger, account, asset)
  {
    var mid := ApplySteps(st, op);
    CallElsewhere(st, mid, Apply(st, op), op.ledger, ledger, account, asset);
  }

  /** The account record the store finds for a ledger and address. */
  function AccountAt(st: State, ledger: string, address: string): Option<Account> {
    var key := AccountKey(ledger, address);
    if key in st.accounts then Some(st.accounts[key]) else None
  }

  ghost predicate SameAccounts(st: State, st': State, ledger: string) {
    forall address :: AccountAt(st', ledger, address) == AccountAt(st, ledger, address)
  }

  /** One ledger name goes on after the other and a colon. */
  predicate KeysMeet(l: string, k: string) {
    l + ":" <= k || k + ":" <= l
  }

  /** What equal keys of two ledgers look like: the longer name starts with the shorter one and a colon, and the rest of
      it starts the shorter one's address. */
  lemma MeetingKey(l: string, a: string, k: string, b: string)
    requires |l| < |k| && AccountKey(l, a) == AccountKey(k, b)
    ensures l + ":" <= k && a == k[|l| + 1..] + ":" + b
  {
    var s, t := AccountKey(l, a), AccountKey(k, b);
    assert forall i :: 0 <= i < |l| ==> s[i] == l[i];
    assert forall i :: 0 <= i < |k| ==> t[i] == k[i];
    assert s[|l|] == ':' && k[|l|] == ':';
    assert s[|l| + 1..] == a && t[|l| + 1..] == k[|l| + 1..] + ":" + b;
  }

  lemma SameLengthKeys(l: string, a: string, k: string, b: string)
    requires |l| == |k| && AccountKey(l, a) == AccountKey(k, b)
    ensures l == k
  {
    assert AccountKey(l, a)[..|l|] == l && AccountKey(k, b)[..|k|] == k;
  }

  /** The account keys of two ledgers can coincide if and only if one name goes on after the other and a colon. */
  lemma KeysMeetMeaning(l: string, k: string)
    requires l != k
    ensures (exists a: string, b: string :: AccountKey(l, a) == AccountKey(k, b)) <==> KeysMeet(l, k)
  {
    if a: string, b: string :| AccountKey(l, a) == AccountKey(k, b) {
      if |l| < |k| {
        MeetingKey(l, a, k, b);
      } else if |k| < |l| {
        MeetingKey(k, b, l, a);
      } else {
        SameLengthKeys(l, a, k, b);
      }
    }
    if l + ":" <= k {
      assert AccountKey(l, k[|l| + 1..] + ":") == AccountKey(k, "");
    } else if k + ":" <= l {
      assert AccountKey(k, l[|k| + 1..] + ":") == AccountKey(l, "");
    }
  }

  /** Where a call can reach another ledger's accounts. Calls only name valid addresses, so going from the shorter
      name to the longer one takes a valid address in between. */
  predicate Reaches(l: string, k: string) {
    k + ":" <= l || (l + ":" <= k && ValidAddress(k[|l| + 1..]))
  }

  lemma KeyOutOfReach(other: string, address: string, ledger: string, a: string)
    requires other != ledger && ValidAddress(address) && !Reaches(other, ledger)
    ensures AccountKey(ledger, a) != AccountKey(other, address)
  {
    if AccountKey(ledger, a) == AccountKey(other, address) {
      if |ledger| < |other| {
        MeetingKey(ledger, a, other, address);
      } else if |other| < |ledger| {
        MeetingKey(other, address, ledger, a);
        ValidAddressSplit(ledger[|other| + 1..], a);
      } else {
        SameLengthKeys(ledger, a, other, address);
      }
    }
  }

  lemma PutAccountElsewhere(st: State, other: string, address: string, kind: string, ledger: string)
    requires other != ledger && ValidAddress(address) && !Reaches(other, ledger)
    ensures SameAccounts(st, PutAccount(st, other, address, kind), ledger)
  {
    forall a ensures AccountKey(ledger, a) != AccountKey(other, address) {
      KeyOutOfReach(other, address, ledger, a);
    }
  }

  predicate ValidEnds(ps: seq<Posting>) {
    forall i :: 0 <= i < |ps| ==> ValidAddress(ps[i].source) && ValidAddress(ps[i].destination)
  }

  lemma {:induction false} PutEndsElsewhere(st: State, other: string, ps: seq<Posting>, ledger: string)
    requires other != ledger && ValidEnds(ps) && !Reaches(other, ledger)
    ensures SameAccounts(st, PutEnds(st, other, ps), ledger)
  {
    if ps != [] {
      var front, p := ps[..|ps| - 1], ps[|ps| - 1];
      var earlier := PutEnds(st, other, front);
      PutEndsElsewhere(st, other, front, ledger);
      PutAccountElsewhere(earlier, other, p.source, "unknown", ledger);
      PutAccountElsewhere(PutAccount(earlier, other, p.source, "unknown"), other, p.destination, "unknown", ledger);
    }
  }

  lemma PostAccountsElsewhere(st: State, other: string, req: Request, ledger: string)
    requires other != ledger && !Reaches(other, ledger)
    ensures SameAccounts(st, Post(st, other, req).0, ledger)
  {
    if FirstError(req.postings) == None {
      NoErrorMeaning(req.postings);
      forall i | 0 <= i < |req.postings|
        ensures ValidAddress(req.postings[i].source) && ValidAddress(req.postings[i].destination)
      {
        assert PostingError(req.postings[i], i) == None;
      }
      PutEndsElsewhere(st, other, req.postings, ledger);
    }
  }

  /** A call on one ledger leaves every other ledger's account records alone, unless its name reaches that ledger. */
  lemma OtherAccountsUntouched(st: State, op: Op, ledger: string)
    requires op.ledger != ledger && !Reaches(op.ledger, ledger)
    ensures SameAccounts(st, Apply(st, op), ledger)
  {
    match op {
      case AccountOp(l, address, kind) =>
        if ValidAddress(address) {
          PutAccountElsewhere(st, l, address, kind, ledger);
        }
      case PostOp(l, req) => PostAccountsElsewhere(st, l, req, ledger);
      case RevertOp(l, id) =>
        var found := FindId(Txs(st, l), id);
        if found.Some? {
          PostAccountsElsewhere(st, l, Request(RevertReference(id), SwapPostings(Txs(st, l)[found.value].postings)),
                                ledger);
        }
    }
  }

  /** A name that reaches another ledger does so by one account creation. */
  lemma ReachedBy(l: string, k: string) returns (address: string, a: string)
    requires l != k && Reaches(l, k)
    ensures AccountAt(EMPTY, k, a) == None
    ensures AccountAt(Apply(EMPTY, AccountOp(l, address, "asset")), k, a) == Some(Account(1, l, address, "asset"))
  {
    ColonFreeIsValid("x");
    if k + ":" <= l {
      address := "x";
      a := l[|k| + 1..] + ":" + address;
    } else {
      a := "x";
      address := k[|l| + 1..] + ":" + a;
      ValidAddressJoin(k[|l| + 1..], a);
    }
    assert AccountKey(l, address) == AccountKey(k, a);
  }

  /** Account isolation, exactly: no call on one ledger ever changes the account records seen under another if and
      only if its name does not reach the other's. */
  lemma AccountsIsolatedIff(l: string, k: string)
    requires l != k
    ensures (forall st, op: Op :: op.ledger == l ==> SameAccounts(st, Apply(st, op), k)) <==> !Reaches(l, k)
  {
    if Reaches(l, k) {
      var address, a := ReachedBy(l, k);
      var op := AccountOp(l, address, "asset");
      assert !SameAccounts(EMPTY, Apply(EMPTY, op), k);
    } else {
      forall st, op: Op | op.ledger == l ensures SameAccounts(st, Apply(st, op), k) {
        OtherAccountsUntouched(st, op, k);
      }
    }
  }

  /** An account created on ledger a:b is found on ledger a. */
  lemma AccountAppearsElsewhere()
    ensures AccountAt(EMPTY, "a", "b:c") == None
    ensures AccountAt(CreateAccount(EMPTY, "a:b", "c", "asset").0, "a", "b:c") == Some(Account(1, "a:b", "c", "asset"))
  {
    ColonFreeIsValid("c");
    assert AccountKey("a:b", "c") == AccountKey("a", "b:c");
  }

  /*** Paging ***/

  function AllPages(txs: seq<Transaction>, limit: nat, offset: nat): seq<Transaction>
    requires limit > 0
    decreases |txs| - offset
  {
    if offset >= |txs| then Page(txs, limit, offset)
    else Page(txs, limit, offset) + AllPages(txs, limit, offset + limit)
  }

  lemma SliceInTwo<T>(s: seq<T>, lo: nat, mid: nat)
    requires lo <= mid <= |s|
    ensures s[lo..] == s[lo..mid] + s[mid..]
  {
  }

  lemma {:induction false} PagesFrom(txs: seq<Transaction>, limit: nat, offset: nat)
    requires limit > 0
    ensures AllPages(txs, limit, offset) == if offset >= |txs| then [] else NewestFirst(txs)[offset..]
    decreases |txs| - offset
  {
    if offset < |txs| {
      var listed := NewestFirst(txs);
      PagesFrom(txs, limit, offset + limit);
      if offset + limit < |txs| {
        SliceInTwo(listed, offset, offset + limit);
      }
    }
  }

  /** Pages at offsets 0, limit, 2*limit, ... list the transactions newest first, each exactly once. */
  lemma PagesConcatenate(ops: seq<Op>, ledger: string, limit: nat)
    requires limit > 0
    ensures AllPages(Txs(Run(ops), ledger), limit, 0) == NewestFirst(Txs(Run(ops), ledger))
    ensures forall i, j :: 0 <= i < j < |Txs(Run(ops), ledger)| ==>
      NewestFirst(Txs(Run(ops), ledger))[i].id > NewestFirst(Txs(Run(ops), ledger))[j].id
  {
    PagesFrom(Txs(Run(ops), ledger), limit, 0);
    RunKeepsBooks(ops);
    assert WellKept(Run(ops), ledger);
  }
}
