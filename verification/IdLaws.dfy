/** One counter numbers accounts, transactions, postings, moves and logs: no id is ever given twice. */
module IdLaws {
  import opened Outcomes
  import opened LedgerTypes
  import opened Ledger
  import opened LedgerSteps

  /** The record an id was given to. */
  datatype Owner =
    | AccountOwner(key: string)
    | TransactionOwner(ledger: string, index: nat)
    | PostingOwner(txId: int, index: nat)
    | MoveOwner(index: nat)
    | LogOwner(index: nat)

  ghost predicate Owns(st: State, o: Owner, id: int) {
    match o
    case AccountOwner(key) => key in st.accounts && st.accounts[key].id == id
    case TransactionOwner(ledger, i) => i < |Txs(st, ledger)| && Txs(st, ledger)[i].id == id
    case PostingOwner(txId, i) => txId in st.postings && i < |st.postings[txId]| && st.postings[txId][i].id == id
    case MoveOwner(i) => i < |st.moves| && st.moves[i].id == id
    case LogOwner(i) => i < |st.logs| && st.logs[i].id == id
  }

  ghost predicate Issued(st: State, o: Owner, id: int) {
    Owns(st, o, id) ==> 1 <= id <= st.nextID
  }

  ghost predicate OneOwner(st: State, o: Owner, o': Owner, id: int) {
    Owns(st, o, id) && Owns(st, o', id) ==> o == o'
  }

  /** Every id in the store was issued by the counter, to one record only. */
  ghost predicate IdsDistinct(st: State) {
    && st.nextID >= 0
    && (forall o, id :: Issued(st, o, id))
    && (forall o, o', id :: OneOwner(st, o, o', id))
  }

  /** Whatever owns an id after a step owned it before, or the id is new and names its owner. */
  ghost predicate OldOrNew(st: State, st': State, o: Owner, id: int, owner: int -> Option<Owner>) {
    Owns(st', o, id) ==> Owns(st, o, id) || (st.nextID < id <= st'.nextID && owner(id) == Some(o))
  }

  lemma NewIdsAreDistinct(st: State, st': State, owner: int -> Option<Owner>)
    requires IdsDistinct(st) && st'.nextID >= st.nextID
    requires forall o, id :: OldOrNew(st, st', o, id, owner)
    ensures IdsDistinct(st')
  {
    forall o, id ensures Issued(st', o, id) {
      assert OldOrNew(st, st', o, id, owner) && Issued(st, o, id);
    }
    forall o, o', id ensures OneOwner(st', o, o', id) {
      assert OldOrNew(st, st', o, id, owner) && OldOrNew(st, st', o', id, owner);
      assert Issued(st, o, id) && Issued(st, o', id) && OneOwner(st, o, o', id);
    }
  }

  lemma PutAccountKeepsIds(st: State, ledger: string, address: string, kind: string)
    requires IdsDistinct(st)
    ensures IdsDistinct(PutAccount(st, ledger, address, kind))
  {
    var st' := PutAccount(st, ledger, address, kind);
    var owner := (id: int) => Some(AccountOwner(AccountKey(ledger, address)));
    forall o, id ensures OldOrNew(st, st', o, id, owner) {
      if Owns(st', o, id) && !o.AccountOwner? {
        assert Owns(st, o, id);
      }
    }
    NewIdsAreDistinct(st, st', owner);
  }

  lemma {:induction false} PutEndsKeepsIds(st: State, ledger: string, ps: seq<Posting>)
    requires IdsDistinct(st)
    ensures IdsDistinct(PutEnds(st, ledger, ps))
  {
    if ps != [] {
      var p, earlier := ps[|ps| - 1], PutEnds(st, ledger, ps[..|ps| - 1]);
      PutEndsKeepsIds(st, ledger, ps[..|ps| - 1]);
      PutAccountKeepsIds(earlier, ledger, p.source, "unknown");
      PutAccountKeepsIds(PutAccount(earlier, ledger, p.source, "unknown"), ledger, p.destination, "unknown");
    }
  }

  /** The ids of one insert in order: the transaction, its postings, its moves. */
  function InsertOwner(st: State, ledger: string, postings: nat, id: int): Option<Owner> {
    var txId := st.nextID + 1;
    if id < txId then None
    else if id == txId then Some(TransactionOwner(ledger, |Txs(st, ledger)|))
    else if id <= txId + postings then Some(PostingOwner(txId, id - txId - 1))
    else Some(MoveOwner(|st.moves| + id - txId - postings - 1))
  }

  lemma InsertedOwner(st: State, st': State, ledger: string, reference: string, ps: seq<Posting>, moves: seq<Move>,
                      o: Owner, id: int)
    requires st' == Insert(st, ledger, reference, ps, moves)
    ensures Owns(st', o, id) ==>
      Owns(st, o, id) || (st.nextID < id <= st'.nextID && InsertOwner(st, ledger, |ps|, id) == Some(o))
  {
    if Owns(st', o, id) {
      match o {
        case AccountOwner(key) =>
        case TransactionOwner(l, i) =>
          var tx := NumberTransaction(st, ledger, reference, ps);
          assert Txs(st', l) == if l == ledger then Txs(st, l) + [tx] else Txs(st, l);
        case PostingOwner(txId, i) =>
        case MoveOwner(i) =>
        case LogOwner(i) =>
      }
    }
  }

  lemma InsertKeepsIds(st: State, ledger: string, reference: string, ps: seq<Posting>, moves: seq<Move>)
    requires IdsDistinct(st)
    ensures IdsDistinct(Insert(st, ledger, reference, ps, moves))
  {
    var st' := Insert(st, ledger, reference, ps, moves);
    var owner := (id: int) => InsertOwner(st, ledger, |ps|, id);
    forall o, id ensures OldOrNew(st, st', o, id, owner) {
      InsertedOwner(st, st', ledger, reference, ps, moves, o, id);
    }
    NewIdsAreDistinct(st, st', owner);
  }

  lemma AddLogKeepsIds(st: State, ledger: string, tx: Transaction)
    requires IdsDistinct(st)
    ensures IdsDistinct(AddLog(st, ledger, tx))
  {
    var st' := AddLog(st, ledger, tx);
    var owner := (id: int) => Some(LogOwner(|st.logs|));
    forall o, id ensures OldOrNew(st, st', o, id, owner) {
      if Owns(st', o, id) && !o.LogOwner? {
        assert Owns(st, o, id);
      }
    }
    NewIdsAreDistinct(st, st', owner);
  }

  lemma PostKeepsIds(st: State, ledger: string, req: Request)
    requires IdsDistinct(st)
    ensures IdsDistinct(Post(st, ledger, req).0)
  {
    var ready, moves := PutEnds(st, ledger, req.postings), BuildMoves(st, ledger, req.postings);
    var tx := NumberTransaction(ready, ledger, req.reference, req.postings);
    PutEndsKeepsIds(st, ledger, req.postings);
    InsertKeepsIds(ready, ledger, req.reference, req.postings, moves);
    AddLogKeepsIds(Insert(ready, ledger, req.reference, req.postings, moves), ledger, tx);
  }

  lemma MarkedOwner(st: State, st': State, ledger: string, id: int, o: Owner, i: int)
    requires st' == MarkReverted(st, ledger, id).0
    ensures Owns(st', o, i) ==> Owns(st, o, i)
  {
    if Owns(st', o, i) && o.TransactionOwner? {
      assert |Txs(st', o.ledger)| == |Txs(st, o.ledger)|;
      assert Txs(st', o.ledger)[o.index].id == Txs(st, o.ledger)[o.index].id;
    }
  }

  lemma MarkKeepsIds(st: State, ledger: string, id: int)
    requires IdsDistinct(st)
    ensures IdsDistinct(MarkReverted(st, ledger, id).0)
  {
    var st' := MarkReverted(st, ledger, id).0;
    var none: int -> Option<Owner> := (_: int) => None;
    MarkCases(st, ledger, id);
    forall o, i ensures OldOrNew(st, st', o, i, none) {
      MarkedOwner(st, st', ledger, id, o, i);
    }
    NewIdsAreDistinct(st, st', none);
  }

  lemma RevertKeepsIds(st: State, ledger: string, id: int)
    requires IdsDistinct(st)
    ensures IdsDistinct(Revert(st, ledger, id).0)
  {
    var found := FindId(Txs(st, ledger), id);
    if found.Some? {
      var req := Request(RevertReference(id), SwapPostings(Txs(st, ledger)[found.value].postings));
      PostKeepsIds(st, ledger, req);
      MarkKeepsIds(Post(st, ledger, req).0, ledger, id);
    }
  }

  /** In every reachable state all ids are distinct, across ledgers and kinds of record. */
  lemma {:induction false} AllIdsDistinct(ops: seq<Op>)
    ensures IdsDistinct(Run(ops))
  {
    if ops == [] {
      assert forall l :: Txs(EMPTY, l) == [];
    } else {
      var st := Run(ops[..|ops| - 1]);
      AllIdsDistinct(ops[..|ops| - 1]);
      match ops[|ops| - 1] {
        case AccountOp(ledger, address, kind) => PutAccountKeepsIds(st, ledger, address, kind);
        case PostOp(ledger, request) => PostKeepsIds(st, ledger, request);
        case RevertOp(ledger, id) => RevertKeepsIds(st, ledger, id);
      }
    }
  }
}
