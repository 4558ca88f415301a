/** The ledger service over the in-memory store. Every method keeps the store equal to the run of the calls so far. */
module LedgerService {
  import opened Outcomes
  import opened Decimal
  import opened Text
  import opened LedgerTypes
  import opened Volumes
  import opened Ledger
  import opened LedgerLaws
  import opened MemStore
  import opened LedgerAnswers

  lemma PrintedAppend(flows: seq<Flow>, f: Flow)
    ensures PrintedMoves(flows + [f]) == PrintedMoves(flows) + [PrintedMove(f)]
  {
  }

  lemma {:induction false} StopsAtFirst(ps: seq<Posting>, i: nat)
    requires i < |ps| && FirstError(ps[..i]) == None && PostingError(ps[i], i).Some?
    ensures FirstError(ps) == PostingError(ps[i], i)
  {
    var front := ps[..|ps| - 1];
    if i < |front| {
      assert front[..i] == ps[..i] && front[i] == ps[i];
      StopsAtFirst(front, i);
    }
  }

  class Service {
    const store: Store
    ghost var history: seq<Op>

    /** The store holds exactly what the calls made so far leave behind. */
    ghost predicate Valid()
      reads this, store
    {
      store.View() == Run(history)
    }

    constructor (store: Store)
      requires store.View() == EMPTY
      ensures this.store == store && Valid() && history == []
    {
      this.store := store;
      history := [];
    }

    method CreateAccount(ledger: string, address: string, kind: string) returns (r: Result<Account>)
      requires Valid()
      modifies this, store
      ensures Valid() && history == old(history) + [AccountOp(ledger, address, kind)]
      ensures (store.View(), r) == Ledger.CreateAccount(old(store.View()), ledger, address, kind)
    {
      history := history + [AccountOp(ledger, address, kind)];
      assert history[..|history| - 1] == old(history);
      if !ValidAddress(address) {
        return Err(BadAddress);
      }
      if !ValidKind(kind) {
        return Err(BadAccountType);
      }
      var id := store.CreateAccount(ledger, address, kind);
      r := Ok(Account(id, ledger, address, kind));
    }

    method GetVolumes(ledger: string, account: string, asset: string) returns (v: Volume)
      ensures v == LatestVolume(Flows(store.moves), ledger, account, asset)
    {
      var inputs, outputs := store.GetAccountBalance(ledger, account, asset);
      v := Volume(Value(inputs), Value(outputs));
    }

    method EnsureAccount(ledger: string, address: string)
      modifies store`accounts, store`nextID
      ensures store.View() == PutAccount(old(store.View()), ledger, address, "unknown")
    {
      var account := store.GetAccount(ledger, address);
      if account == None {
        var _ := store.CreateAccount(ledger, address, "unknown");
      }
    }

    /** One move of a posting, with the running totals this request has reached under the move's key. */
    method BuildMove(ledger: string, account: string, asset: string, isSource: bool, amount: int,
                     volAdj: map<string, Volume>, ghost b: Built)
      returns (move: Move, adjusted: map<string, Volume>)
      requires volAdj == b.adj
      ensures var b' := AddMove(b, ledger, account, asset, isSource, amount, Stored(Flows(store.moves), ledger));
        move == PrintedMove(b'.moves[|b.moves|]) && adjusted == b'.adj
    {
      hide Print;
      var key := account + ":" + asset;
      var v := GetVolumes(ledger, account, asset);
      var adj := if key in volAdj then volAdj[key] else Volume(0, 0);
      var ins, outs := v.ins + adj.ins, v.outs + adj.outs;
      if isSource {
        outs := outs + amount;
        adjusted := volAdj[key := Volume(adj.ins, adj.outs + amount)];
      } else {
        ins := ins + amount;
        adjusted := volAdj[key := Volume(adj.ins + amount, adj.outs)];
      }
      assert Flow(ledger, account, asset, isSource, amount, ins, outs) ==
        AddMove(b, ledger, account, asset, isSource, amount, Stored(Flows(store.moves), ledger)).moves[|b.moves|];
      move := Move(0, ledger, 0, 0, account, asset, Print(amount), isSource, Print(ins), Print(outs));
    }

    method ValidatePostings(ps: seq<Posting>) returns (error: Option<Error>)
      ensures error == FirstError(ps)
    {
      for i := 0 to |ps|
        invariant FirstError(ps[..i]) == None
      {
        assert ps[..i + 1][..i] == ps[..i];
        var p := ps[i];
        error := None;
        if !ValidAddress(p.source) {
          error := Some(BadSource(i));
        } else if !ValidAddress(p.destination) {
          error := Some(BadDestination(i));
        } else if p.source == p.destination {
          error := Some(SameAccount(i));
        } else if p.asset == "" {
          error := Some(BadAsset(i));
        } else {
          var amount := Parse(p.amount);
          if amount == None || amount.value <= 0 {
            error := Some(BadAmount(i));
          }
        }
        if error.Some? {
          StopsAtFirst(ps, i);
          return;
        }
      }
      assert ps[..|ps|] == ps;
      error := None;
    }

    method PostTransaction(ledger: string, req: Request) returns (r: Result<Transaction>)
      requires Valid()
      modifies this, store
      ensures Valid() && history == old(history) + [PostOp(ledger, req)]
      ensures (store.View(), r) == Post(old(store.View()), ledger, req)
    {
      history := history + [PostOp(ledger, req)];
      assert history[..|history| - 1] == old(history);
      if req.postings == [] {
        return Err(NoPostings);
      }
      if req.reference != "" {
        var existing := store.GetTransactionByReference(ledger, req.reference);
        if existing.Some? {
          return Ok(existing.value);
        }
      }
      var error := ValidatePostings(req.postings);
      if error.Some? {
        return Err(error.value);
      }
      var moves := PrepareMoves(ledger, req.postings);
      var tx, _ := store.InsertTransaction(ledger, req.reference, req.postings, moves);
      store.InsertLog(ledger, tx);
      r := Ok(tx);
    }

    /** The volume loop: creates missing accounts and builds two moves per posting. */
    method PrepareMoves(ledger: string, ps: seq<Posting>) returns (moves: seq<Move>)
      modifies store`accounts, store`nextID
      ensures store.View() == PutEnds(old(store.View()), ledger, ps)
      ensures moves == BuildMoves(old(store.View()), ledger, ps)
    {
      hide PutAccount;
      moves := [];
      var volAdj: map<string, Volume> := map[];
      ghost var stored := Stored(Flows(store.moves), ledger);
      for i := 0 to |ps|
        invariant store.View() == PutEnds(old(store.View()), ledger, ps[..i])
        invariant store.moves == old(store.moves)
        invariant moves == PrintedMoves(Build(ledger, Entries(ps[..i]), stored).moves)
        invariant volAdj == Build(ledger, Entries(ps[..i]), stored).adj
      {
        var p := ps[i];
        var amount := Value(p.amount);
        ghost var b := Build(ledger, Entries(ps[..i]), stored);
        assert ps[..i + 1][..i] == ps[..i];
        assert Entries(ps[..i + 1])[..i] == Entries(ps[..i]);
        EnsureAccount(ledger, p.source);
        EnsureAccount(ledger, p.destination);
        var debit, credit;
        debit, volAdj := BuildMove(ledger, p.source, p.asset, true, amount, volAdj, b);
        ghost var debited := AddMove(b, ledger, p.source, p.asset, true, amount, stored);
        credit, volAdj := BuildMove(ledger, p.destination, p.asset, false, amount, volAdj, debited);
        PrintedAppend(b.moves, debited.moves[|b.moves|]);
        ghost var credited := AddPosting(b, ledger, EntryOf(p), stored);
        PrintedAppend(debited.moves, credited.moves[|debited.moves|]);
        assert credited == Build(ledger, Entries(ps[..i + 1]), stored);
        moves := moves + [debit] + [credit];
      }
      assert ps[..|ps|] == ps;
    }

    method RevertTransaction(ledger: string, id: int) returns (r: Result<Transaction>)
      requires Valid()
      modifies this, store
      ensures Valid() && history == old(history) + [RevertOp(ledger, id)]
      ensures (store.View(), r) == Revert(old(store.View()), ledger, id)
    {
      ghost var before := history;
      var original := store.GetTransaction(ledger, id);
      if original == None {
        history := before + [RevertOp(ledger, id)];
        assert history[..|history| - 1] == before;
        return Err(TransactionNotFound(id));
      }
      if original.value.reverted {
        history := before + [RevertOp(ledger, id)];
        assert history[..|history| - 1] == before;
        return Err(AlreadyReverted(id));
      }
      var reversed: seq<Posting> := [];
      var ps := original.value.postings;
      for i := 0 to |ps|
        invariant reversed == SwapPostings(ps)[..i]
      {
        reversed := reversed + [Posting(0, 0, ps[i].destination, ps[i].source, ps[i].asset, ps[i].amount)];
      }
      assert reversed == SwapPostings(ps);
      var reversal := PostTransaction(ledger, Request("revert:" + Print(id), reversed));
      history := before + [RevertOp(ledger, id)];
      assert history[..|history| - 1] == before;
      if reversal.Err? {
        return Err(ReversalFailed(reversal.error));
      }
      var marked := store.RevertTransaction(ledger, id);
      if marked.Err? {
        return Err(marked.error);
      }
      r := reversal;
    }

    method GetTransaction(ledger: string, id: int) returns (found: Option<Transaction>)
      ensures found == match FindId(Txs(store.View(), ledger), id)
                       case None => None
                       case Some(i) => Some(Txs(store.View(), ledger)[i])
    {
      found := store.GetTransaction(ledger, id);
    }

    method ListTransactions(ledger: string, limit: int, offset: nat) returns (page: seq<Transaction>)
      ensures page == Page(Txs(store.View(), ledger), if limit <= 0 then 100 else limit, offset)
    {
      page := store.ListTransactions(ledger, if limit <= 0 then 100 else limit, offset);
    }

    /** The reported balance; wherever no stored transaction confuses this pair, it is the replayed one. */
    method GetAccountBalance(ledger: string, account: string, asset: string) returns (row: AccountBalance)
      requires Valid()
      ensures row == BalanceRow(store.moves, ledger, account, asset) && RowReads(row, account, asset)
      ensures Value(row.balance) == Reported(store.View(), ledger, account, asset)
      ensures RowIsReplayed(row, store.View(), ledger) <==> CleanAt(Txs(store.View(), ledger), account, asset)
      ensures CleanAt(Txs(store.View(), ledger), account, asset) ==>
        Value(row.balance) == Replayed(Txs(store.View(), ledger), account, asset)
    {
      hide Print, Parse, CleanAt, RowIsReplayed, Flows;
      var v := GetVolumes(ledger, account, asset);
      row := AccountBalance(account, asset, Print(v.ins - v.outs), Print(v.ins), Print(v.outs));
      ParsePrint(v.ins - v.outs);
      RowIsReplayedIff(history, ledger, account, asset);
      if CleanAt(Txs(store.View(), ledger), account, asset) {
        ReportedIsReplayed(history, ledger, account, asset);
      }
    }

    method GetAccountBalances(ledger: string, account: string) returns (rows: seq<AccountBalance>)
      ensures ListsBalances(rows, store.moves, ledger, account)
      ensures forall i :: 0 <= i < |rows| ==> RowReads(rows[i], account, rows[i].asset)
      ensures Valid() ==> forall i :: 0 <= i < |rows| ==>
        (RowIsReplayed(rows[i], store.View(), ledger) <==>
         CleanAt(Txs(store.View(), ledger), account, rows[i].asset))
    {
      rows := store.GetAccountBalances(ledger, account);
      forall i | 0 <= i < |rows|
        ensures RowReads(rows[i], account, rows[i].asset)
        ensures Valid() ==>
          (RowIsReplayed(rows[i], store.View(), ledger) <==>
           CleanAt(Txs(store.View(), ledger), account, rows[i].asset))
      {
        BuiltRow(store.moves, ledger, account, rows[i].asset);
        if Valid() {
          RowsAreReplayedIff(history, ledger, account, rows, i);
        }
      }
    }
  }
}
