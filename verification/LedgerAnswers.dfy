/** What each ledger call answers and stores, in terms of its request and of the records stored before. */
module LedgerAnswers {
  import opened Outcomes
  import opened Decimal
  import opened Text
  import opened LedgerTypes
  import opened Volumes
  import opened Effects
  import opened Ledger
  import opened LedgerSteps
  import opened LedgerLaws
  import opened LedgerRuns
  import opened MemStore

  /*** Accounts ***/

  lemma SameKey(ledger: string, a: string, b: string)
    requires AccountKey(ledger, a) == AccountKey(ledger, b)
    ensures a == b
  {
    assert AccountKey(ledger, a)[|ledger| + 1..] == a && AccountKey(ledger, b)[|ledger| + 1..] == b;
  }

  lemma OtherAddresses(st: State, ledger: string, address: string, kind: string, a: string)
    requires a != address
    ensures AccountAt(PutAccount(st, ledger, address, kind), ledger, a) == AccountAt(st, ledger, a)
  {
    if AccountKey(ledger, a) == AccountKey(ledger, address) {
      SameKey(ledger, a, address);
    }
  }

  /** Creating an account: two checks in this order; an account that exists keeps its record and lends its id, a new one
      takes the next id. */
  lemma AccountAnswers(st: State, ledger: string, address: string, kind: string)
    ensures var (st', r) := CreateAccount(st, ledger, address, kind);
      var before := AccountAt(st, ledger, address);
      && (r == Err(BadAddress) <==> !NoEmptySegment(address))
      && (r == Err(BadAccountType) <==>
            NoEmptySegment(address) && kind !in ["asset", "liability", "equity", "revenue", "expense", "unknown"])
      && (r.Err? ==> st' == st && (r.error == BadAddress || r.error == BadAccountType))
      && (r.Ok? && before.Some? ==> st' == st && r.value == Account(before.value.id, ledger, address, kind))
      && (r.Ok? && before == None ==>
            && r.value == Account(st.nextID + 1, ledger, address, kind)
            && AccountAt(st', ledger, address) == Some(r.value)
            && st' == st.(accounts := st'.accounts, nextID := st.nextID + 1))
      && forall a :: a != address ==> AccountAt(st', ledger, a) == AccountAt(st, ledger, a)
  {
    ValidAddressMeaning(address);
    forall a | a != address
      ensures AccountAt(CreateAccount(st, ledger, address, kind).0, ledger, a) == AccountAt(st, ledger, a)
    {
      OtherAddresses(st, ledger, address, kind, a);
    }
  }

  predicate IsEnd(ps: seq<Posting>, address: string) {
    exists i :: 0 <= i < |ps| && (ps[i].source == address || ps[i].destination == address)
  }

  lemma IsEndAppend(ps: seq<Posting>, address: string)
    requires ps != []
    ensures var p := ps[|ps| - 1];
      IsEnd(ps, address) <==> IsEnd(ps[..|ps| - 1], address) || p.source == address || p.destination == address
  {
    var front := ps[..|ps| - 1];
    if i :| 0 <= i < |ps| && (ps[i].source == address || ps[i].destination == address) {
      assert i < |front| ==> front[i] == ps[i];
    }
    if i :| 0 <= i < |front| && (front[i].source == address || front[i].destination == address) {
      assert ps[i] == front[i];
    }
  }

  /** What a request does to the account record at an address: a missing end appears as unknown, nothing else changes.
      */
  ghost predicate Named(st: State, st': State, ledger: string, ends: bool, address: string) {
    var before, after := AccountAt(st, ledger, address), AccountAt(st', ledger, address);
    if before.Some? || !ends then after == before
    else after.Some? && after.value == Account(after.value.id, ledger, address, "unknown") &&
         st.nextID < after.value.id <= st'.nextID
  }

  lemma OneNamed(st: State, ledger: string, a: string, address: string)
    ensures var before, st' := AccountAt(st, ledger, address), PutAccount(st, ledger, a, "unknown");
      && AccountAt(st', ledger, address) ==
           (if before.Some? || a != address then before else Some(Account(st.nextID + 1, ledger, address, "unknown")))
      && (before == None && a == address ==> st'.nextID == st.nextID + 1) && st'.nextID >= st.nextID
  {
    if a != address {
      OtherAddresses(st, ledger, a, "unknown", address);
    }
  }

  lemma {:induction false} EndsNamed(st: State, ledger: string, ps: seq<Posting>, address: string)
    ensures Named(st, PutEnds(st, ledger, ps), ledger, IsEnd(ps, address), address)
    ensures st.nextID <= PutEnds(st, ledger, ps).nextID
  {
    if ps == [] {
    } else {
      hide PutAccount, AccountAt, IsEnd;
      var p, earlier := ps[|ps| - 1], PutEnds(st, ledger, ps[..|ps| - 1]);
      EndsNamed(st, ledger, ps[..|ps| - 1], address);
      IsEndAppend(ps, address);
      OneNamed(earlier, ledger, p.source, address);
      OneNamed(PutAccount(earlier, ledger, p.source, "unknown"), ledger, p.destination, address);
    }
  }

  /*** Posting ***/

  /** Why a posting is refused: the first of five checks that fails. */
  lemma PostingErrorMeaning(p: Posting, i: nat)
    ensures var e := PostingError(p, i);
      var ends := NoEmptySegment(p.source) && NoEmptySegment(p.destination);
      && (e == Some(BadSource(i)) <==> !NoEmptySegment(p.source))
      && (e == Some(BadDestination(i)) <==> NoEmptySegment(p.source) && !NoEmptySegment(p.destination))
      && (e == Some(SameAccount(i)) <==> ends && p.source == p.destination)
      && (e == Some(BadAsset(i)) <==> ends && p.source != p.destination && p.asset == "")
      && (e == Some(BadAmount(i)) <==>
            ends && p.source != p.destination && p.asset != "" && !exists n :: n > 0 && Parse(p.amount) == Some(n))
      && (e == None <==>
            ends && p.source != p.destination && p.asset != "" && exists n :: n > 0 && Parse(p.amount) == Some(n))
  {
    hide ValidAddress, NoEmptySegment, Parse;
    ValidAddressMeaning(p.source);
    ValidAddressMeaning(p.destination);
  }

  predicate FirstFailing(ps: seq<Posting>, i: nat) {
    && i < |ps| && PostingError(ps[i], i).Some?
    && forall k :: 0 <= k < i ==> PostingError(ps[k], k) == None
  }

  /** A non-empty reference that one of these transactions has. */
  predicate Taken(txs: seq<Transaction>, reference: string) {
    reference != "" && exists i :: 0 <= i < |txs| && txs[i].reference == reference
  }

  predicate FirstWith(txs: seq<Transaction>, reference: string, i: nat) {
    && i < |txs| && txs[i].reference == reference
    && forall k :: 0 <= k < i ==> txs[k].reference != reference
  }

  lemma {:induction false} FoundFirst(txs: seq<Transaction>, reference: string) returns (i: nat)
    requires FindReference(txs, reference).Some?
    ensures FirstWith(txs, reference, i) && FindReference(txs, reference) == Some(txs[i])
  {
    var front := txs[..|txs| - 1];
    if FindReference(front, reference).Some? {
      i := FoundFirst(front, reference);
    } else {
      i := |txs| - 1;
      FindReferenceMeaning(front, reference);
      assert forall k :: 0 <= k < i ==> txs[k] == front[k];
    }
  }

  /** Every post that stores nothing: no postings, a reference the ledger already has, or a posting in error, looked at
      in this order. The reference's first transaction is returned; the error is the first failing posting's. */
  lemma PostAnswers(st: State, ledger: string, req: Request)
    ensures var (st', r) := Post(st, ledger, req);
      var txs := Txs(st, ledger);
      && (req.postings == [] ==> st' == st && r == Err(NoPostings))
      && (req.postings != [] && req.reference != "" ==>
            forall i: nat :: FirstWith(txs, req.reference, i) ==> st' == st && r == Ok(txs[i]))
      && (req.postings != [] && !Taken(txs, req.reference) ==>
            && (r.Ok? <==> forall i :: 0 <= i < |req.postings| ==> PostingError(req.postings[i], i) == None)
            && forall i: nat :: FirstFailing(req.postings, i) ==>
                 st' == st && r == Err(PostingError(req.postings[i], i).value))
  {
    hide PostingError, FirstError, Commit;
    var txs := Txs(st, ledger);
    FindReferenceMeaning(txs, req.reference);
    if FindReference(txs, req.reference).Some? {
      var i := FoundFirst(txs, req.reference);
    }
    NoErrorMeaning(req.postings);
    if FirstError(req.postings).Some? {
      var i := FirstErrorMeaning(req.postings);
    }
  }

  /** The k-th move of a request, apart from its running totals: source and destination of each posting in turn. */
  predicate StoredLeg(m: Move, ledger: string, ps: seq<Posting>, txId: int, k: nat)
    requires k < 2 * |ps|
  {
    var p := ps[k / 2];
    && m.id == txId + |ps| + 1 + k && m.ledger == ledger && m.txId == txId && m.postingId == 0
    && m.account == (if k % 2 == 0 then p.source else p.destination) && m.isSource == (k % 2 == 0)
    && m.asset == p.asset && m.amount == Print(Value(p.amount))
  }

  /** The moves of a request: two per posting, numbered after the postings. */
  ghost predicate StoredLegs(moves: seq<Move>, ledger: string, ps: seq<Posting>, txId: int) {
    |moves| == 2 * |ps| && forall k :: 0 <= k < |moves| ==> StoredLeg(moves[k], ledger, ps, txId, k)
  }

  /** The transaction a request is stored as, with the id it has. */
  predicate StoredAs(tx: Transaction, ledger: string, req: Request) {
    && tx.ledger == ledger && tx.reference == req.reference && !tx.reverted && |tx.postings| == |req.postings|
    && forall i :: 0 <= i < |req.postings| ==>
         var p := req.postings[i];
         tx.postings[i] == Posting(tx.id + 1 + i, tx.id, p.source, p.destination, p.asset, p.amount)
  }

  lemma BuiltLegs(st: State, ledger: string, ps: seq<Posting>, txId: int)
    ensures StoredLegs(NumberMoves(BuildMoves(st, ledger, ps), txId + |ps|, txId), ledger, ps, txId)
  {
    hide Print;
    var flows, moves := NewFlows(Flows(st.moves), ledger, Entries(ps)), BuildMoves(st, ledger, ps);
    BuildShape(ledger, Entries(ps), Stored(Flows(st.moves), ledger));
    var numbered := NumberMoves(moves, txId + |ps|, txId);
    forall k | 0 <= k < |numbered| ensures StoredLeg(numbered[k], ledger, ps, txId, k) {
      assert LegAt(flows, ledger, Entries(ps), k);
    }
  }

  lemma BuiltCount(st: State, ledger: string, ps: seq<Posting>)
    ensures |BuildMoves(st, ledger, ps)| == 2 * |ps|
  {
    BuildShape(ledger, Entries(ps), Stored(Flows(st.moves), ledger));
  }

  lemma NamedLater(st: State, ready: State, st': State, ledger: string, ends: bool, address: string)
    requires Named(st, ready, ledger, ends, address)
    requires st'.accounts == ready.accounts && st'.nextID >= ready.nextID
    ensures Named(st, st', ledger, ends, address)
  {
  }

  lemma NewIsTaken(st: State, ledger: string, req: Request)
    requires req.postings != [] && !Taken(Txs(st, ledger), req.reference)
    requires forall i :: 0 <= i < |req.postings| ==> PostingError(req.postings[i], i) == None
    ensures !Repeats(st, ledger, req) && FirstError(req.postings) == None && Post(st, ledger, req).1.Ok?
  {
    hide FirstError, PostingError, Commit;
    NoErrorMeaning(req.postings);
    FindReferenceMeaning(Txs(st, ledger), req.reference);
  }

  /** Everything an accepted new request leaves behind: the transaction, two moves per posting, the log entry, and ids
      that run transaction, postings, moves, log. */
  lemma PostStores(st: State, ledger: string, req: Request)
    requires req.postings != [] && !Taken(Txs(st, ledger), req.reference)
    requires forall i :: 0 <= i < |req.postings| ==> PostingError(req.postings[i], i) == None
    ensures Post(st, ledger, req).1.Ok?
    ensures var (st', r) := Post(st, ledger, req);
      var tx, n := r.value, |req.postings|;
      && tx.id > st.nextID && StoredAs(tx, ledger, req)
      && st'.transactions == st.transactions[ledger := Txs(st, ledger) + [tx]]
      && st'.postings == st.postings[tx.id := tx.postings]
      && st.moves <= st'.moves && StoredLegs(st'.moves[|st.moves|..], ledger, req.postings, tx.id)
      && st'.logs == st.logs + [LogEntry(tx.id + 3 * n + 1, ledger, tx.id, req.reference, n)]
      && st'.nextID == tx.id + 3 * n + 1
      && forall address :: Named(st, st', ledger, IsEnd(req.postings, address), address)
  {
    hide FirstError, PostingError, BuildMoves, Named, StoredLegs, IsEnd, PutEnds, Taken;
    NewIsTaken(st, ledger, req);
    var ps := req.postings;
    var ready, st' := PutEnds(st, ledger, ps), Post(st, ledger, req).0;
    PutEndsKeepsBooks(st, ledger, ps);
    EndsNamed(st, ledger, ps, "");
    BuiltLegs(st, ledger, ps, ready.nextID + 1);
    var added := NumberMoves(BuildMoves(st, ledger, ps), ready.nextID + 1 + |ps|, ready.nextID + 1);
    assert |added| == 2 * |ps| by { BuiltCount(st, ledger, ps); }
    assert st'.moves[|st.moves|..] == added;
    forall address ensures Named(st, st', ledger, IsEnd(ps, address), address) {
      EndsNamed(st, ledger, ps, address);
      NamedLater(st, ready, st', ledger, IsEnd(ps, address), address);
    }
  }

  lemma PostKeepsAccounts(st: State, ledger: string, req: Request, address: string)
    requires AccountAt(st, ledger, address).Some?
    ensures AccountAt(Post(st, ledger, req).0, ledger, address) == AccountAt(st, ledger, address)
  {
    hide FirstError, BuildMoves, IsEnd, PutEnds;
    EndsNamed(st, ledger, req.postings, address);
  }

  /*** Reverting ***/

  /** One posting with its ends swapped. */
  predicate Reverses(p: Posting, original: Posting) {
    p.source == original.destination && p.destination == original.source && p.asset == original.asset
    && p.amount == original.amount
  }

  /** The transaction carries the other's postings with their ends swapped, one by one. */
  predicate ReversesAll(tx: Transaction, original: Transaction) {
    && |tx.postings| == |original.postings|
    && forall k :: 0 <= k < |tx.postings| ==> Reverses(tx.postings[k], original.postings[k])
  }

  lemma ReversalStores(st: State, ledger: string, i: nat, id: int)
    requires FindId(Txs(st, ledger), id) == Some(i) && Revert(st, ledger, id).1.Ok?
    requires FindReference(Txs(st, ledger), "revert:" + Print(id)) == None
    ensures ReversesAll(Revert(st, ledger, id).1.value, Txs(st, ledger)[i])
    ensures Revert(st, ledger, id).1.value.reference == "revert:" + Print(id)
  {
    var req := Request("revert:" + Print(id), SwapPostings(Txs(st, ledger)[i].postings));
    FindReferenceMeaning(Txs(st, ledger), req.reference);
    NoErrorMeaning(req.postings);
    assert !Taken(Txs(st, ledger), req.reference);
    PostStores(st, ledger, req);
    assert StoredAs(Post(st, ledger, req).1.value, ledger, req);
  }

  predicate FirstWithId(txs: seq<Transaction>, id: int, i: nat) {
    i < |txs| && txs[i].id == id && forall k :: 0 <= k < i ==> txs[k].id != id
  }

  lemma {:induction false} FoundFirstId(txs: seq<Transaction>, id: int)
    requires FindId(txs, id).Some?
    ensures FirstWithId(txs, id, FindId(txs, id).value)
  {
    var front := txs[..|txs| - 1];
    if FindId(front, id).Some? {
      FoundFirstId(front, id);
      assert forall k :: 0 <= k < |front| ==> txs[k] == front[k];
    } else {
      FindIdMeaning(front, id);
      assert forall k :: 0 <= k < |front| ==> txs[k] == front[k];
    }
  }

  lemma RevertRefusals(st: State, ledger: string, id: int)
    ensures var txs, found := Txs(st, ledger), FindId(Txs(st, ledger), id);
      && (found == None ==> Revert(st, ledger, id) == (st, Err(TransactionNotFound(id))))
      && (found.Some? && txs[found.value].reverted ==> Revert(st, ledger, id) == (st, Err(AlreadyReverted(id))))
  {
  }

  /** A revert in a reachable state: refused exactly for an id that is not stored or already marked. Otherwise it marks
      the transaction in place and answers with a new transaction under "revert:" and the id, with every posting
      swapped, or with the one that has that reference already, posting nothing. */
  lemma RevertAnswers(ops: seq<Op>, ledger: string, id: int)
    ensures var st := Run(ops);
      var (st', r) := Revert(st, ledger, id);
      var txs, reference := Txs(st, ledger), "revert:" + Print(id);
      && (r == Err(TransactionNotFound(id)) <==> forall i :: 0 <= i < |txs| ==> txs[i].id != id)
      && (r == Err(AlreadyReverted(id)) <==> exists i :: 0 <= i < |txs| && txs[i].id == id && txs[i].reverted)
      && (r.Err? ==> st' == st && (r.error == TransactionNotFound(id) || r.error == AlreadyReverted(id)))
      && forall i :: 0 <= i < |txs| && txs[i].id == id && !txs[i].reverted ==>
           && r.Ok? && r.value.reference == reference
           && if r.value in txs then Txs(st', ledger) == txs[i := txs[i].(reverted := true)] && st'.moves == st.moves
              else (forall k :: 0 <= k < |txs| ==> txs[k].reference != reference) &&
                   Txs(st', ledger) == (txs + [r.value])[i := txs[i].(reverted := true)] && !r.value.reverted &&
                   ReversesAll(r.value, txs[i])
  {
    hide Print, FindReference, FindId, Revert, ReversesAll, Run;
    var st, txs := Run(ops), Txs(Run(ops), ledger);
    RunKeepsBooks(ops);
    assert IncreasingIds(txs) by {
      assert WellKept(st, ledger);
    }
    hide Books, IncreasingIds;
    RevertCases(st, ledger, id);
    RevertRefusals(st, ledger, id);
    FindIdMeaning(txs, id);
    FindReferenceMeaning(txs, "revert:" + Print(id));
    if i :| 0 <= i < |txs| && txs[i].id == id && !txs[i].reverted {
      assert FindId(txs, id) == Some(i);
      if FindReference(txs, "revert:" + Print(id)) == None {
        ReversalStores(st, ledger, i, id);
      }
    }
  }

  /** The store's own mark, on any list: it reports which of the two conditions failed, or marks the first transaction
      with that id and nothing else. */
  lemma MarkAnswers(st: State, ledger: string, id: int)
    ensures var (st', r) := MarkReverted(st, ledger, id);
      var txs := Txs(st, ledger);
      && ((forall i :: 0 <= i < |txs| ==> txs[i].id != id) ==> st' == st && r == Err(TransactionNotFound(id)))
      && forall i: nat :: FirstWithId(txs, id, i) ==>
           if txs[i].reverted then st' == st && r == Err(AlreadyReverted(id))
           else r == Ok(()) &&
                st' == st.(transactions := st.transactions[ledger := txs[i := txs[i].(reverted := true)]])
  {
    hide FindId;
    var txs := Txs(st, ledger);
    FindIdMeaning(txs, id);
    if FindId(txs, id).Some? {
      FoundFirstId(txs, id);
    }
  }

  /** A reversal the ledger refuses, which no reachable state has: the refusal is reported as the revert's cause, and
      nothing is marked. */
  lemma ReversalRefused(st: State, ledger: string, id: int, i: nat)
    requires FirstWithId(Txs(st, ledger), id, i) && !Txs(st, ledger)[i].reverted
    ensures var (posted, reversal) :=
        Post(st, ledger, Request("revert:" + Print(id), SwapPostings(Txs(st, ledger)[i].postings)));
      reversal.Err? ==> Revert(st, ledger, id) == (posted, Err(ReversalFailed(reversal.error))) && posted == st
  {
    hide FindId, Post, Print, SwapPostings, MarkReverted;
    PostCases(st, ledger, Request("revert:" + Print(id), SwapPostings(Txs(st, ledger)[i].postings)));
    FindIdMeaning(Txs(st, ledger), id);
    FoundFirstId(Txs(st, ledger), id);
  }

  /*** Listing ***/

  /** A page: the transactions from the newest back, after skipping offset of them, at most limit of them. */
  lemma PageMeaning(txs: seq<Transaction>, limit: nat, offset: nat)
    ensures |Page(txs, limit, offset)| ==
      if offset >= |txs| then 0 else if limit > |txs| - offset then |txs| - offset else limit
    ensures forall k :: 0 <= k < |Page(txs, limit, offset)| ==>
      Page(txs, limit, offset)[k] == txs[|txs| - 1 - offset - k]
  {
    if offset < |txs| {
      assert Page(txs, limit, offset) == NewestFirst(txs)[offset..offset + |Page(txs, limit, offset)|];
    }
  }

  /*** Balances ***/

  /** A row names the account and asset asked for; its three amounts are printed, and the balance is the inputs minus
      the outputs. */
  ghost predicate RowReads(row: AccountBalance, account: string, asset: string) {
    && row.account == account && row.asset == asset
    && Value(row.balance) == Value(row.inputs) - Value(row.outputs)
    && row.balance == Print(Value(row.balance)) && row.inputs == Print(Value(row.inputs))
    && row.outputs == Print(Value(row.outputs))
  }

  /** The volumes of a row are what the moves into the account and out of it add up to. */
  ghost predicate RowIsReplayed(row: AccountBalance, st: State, ledger: string) {
    var flows, at := Flows(st.moves), At(ledger, row.account, row.asset);
    Value(row.inputs) == SumWhere(flows, at, false) && Value(row.outputs) == SumWhere(flows, at, true)
  }

  lemma BuiltRow(moves: seq<Move>, ledger: string, account: string, asset: string)
    ensures var row := BalanceRow(moves, ledger, account, asset);
      && RowReads(row, account, asset)
      && LatestVolume(Flows(moves), ledger, account, asset) == Volume(Value(row.inputs), Value(row.outputs))
  {
    hide Print, LatestVolume, Flows;
    var v := LatestVolume(Flows(moves), ledger, account, asset);
    ParsePrint(v.ins);
    ParsePrint(v.outs);
    ParsePrint(v.ins - v.outs);
  }

  /** The single-asset read after any run. */
  lemma RowIsReplayedIff(ops: seq<Op>, ledger: string, account: string, asset: string)
    ensures var row := BalanceRow(Run(ops).moves, ledger, account, asset);
      && RowReads(row, account, asset)
      && (RowIsReplayed(row, Run(ops), ledger) <==> CleanAt(Txs(Run(ops), ledger), account, asset))
  {
    BuiltRow(Run(ops).moves, ledger, account, asset);
    ReadIsReplayedIff(ops, ledger, account, asset);
    hide BalanceRow, Run, CleanAt, SumWhere, LatestVolume;
  }

  /** The all-assets read after any run: every row of it likewise. */
  lemma RowsAreReplayedIff(ops: seq<Op>, ledger: string, account: string, rows: seq<AccountBalance>, i: nat)
    requires ListsBalances(rows, Run(ops).moves, ledger, account) && i < |rows|
    ensures RowReads(rows[i], account, rows[i].asset)
    ensures RowIsReplayed(rows[i], Run(ops), ledger) <==> CleanAt(Txs(Run(ops), ledger), account, rows[i].asset)
  {
    RowIsReplayedIff(ops, ledger, account, rows[i].asset);
  }
}
