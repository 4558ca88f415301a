/** The same accepted posts leave the same moves in both stores, so every read agrees. */
module StoreAgreement {
  import opened Outcomes
  import opened LedgerTypes
  import opened Volumes
  import opened Ledger
  import opened LedgerSteps
  import LedgerEffects
  import LedgerLaws
  import opened PgStore

  function PgStored(rows: seq<MoveRow>, ledger: string): (string, string) -> Volume {
    (account: string, asset: string) => NewestVolume(rows, ledger, account, asset)
  }

  /** PostTransaction over the SQL store: the same checks, its own reads, its own insert. */
  function PgPost(t: Tables, ledger: string, req: Request): Tables {
    if req.postings == [] || Taken(t.transactions, ledger, req.reference) || FirstError(req.postings).Some? then t
    else
      var es := Entries(req.postings);
      InsertRows(t, ledger, req.reference, es, Build(ledger, es, PgStored(t.moves, ledger)).moves).0
  }

  /** Posting k/2 owns move k: its transaction, its id, and the account and amount of its end. */
  predicate OwnsMove(postings: seq<PostingRow>, row: MoveRow, k: nat)
    requires k / 2 < |postings|
  {
    var p := postings[k / 2];
    && row.postingId == p.id && row.txId == p.txId
    && row.flow.ledger == p.ledger && row.flow.asset == p.entry.asset && row.flow.amount == p.entry.amount
    && row.flow.isSource == (k % 2 == 0)
    && row.flow.account == if k % 2 == 0 then p.entry.source else p.entry.destination
  }

  /** Every posting row has exactly its two move rows, in order, each carrying its id. */
  predicate PairedRows(postings: seq<PostingRow>, rows: seq<MoveRow>) {
    && |rows| == 2 * |postings|
    && forall k :: 0 <= k < |rows| ==> OwnsMove(postings, rows[k], k)
  }

  predicate PairedTables(t: Tables) {
    PairedRows(t.postings, t.moves)
  }

  ghost predicate SameReference(st: State, t: Tables, ledger: string, reference: string) {
    reference != "" ==> (Taken(t.transactions, ledger, reference) <==> FindReference(Txs(st, ledger), reference).Some?)
  }

  ghost predicate Agree(st: State, t: Tables) {
    && IncreasingRows(t.moves, t.moveSeq)
    && FlowsIn(t.moves) == Flows(st.moves)
    && PairedTables(t)
    && forall ledger, reference :: SameReference(st, t, ledger, reference)
  }

  lemma RowFlows(ledger: string, txId: int, lastPosting: int, last: int, flows: seq<Flow>)
    requires forall k :: 0 <= k < |flows| ==> flows[k].ledger == ledger
    ensures FlowsIn(MoveRows(ledger, txId, lastPosting, last, flows, |flows|)) == flows
  {
  }

  lemma FlowsInAppend(a: seq<MoveRow>, b: seq<MoveRow>)
    ensures FlowsIn(a + b) == FlowsIn(a) + FlowsIn(b)
  {
  }

  lemma IncreasingAppend(rows: seq<MoveRow>, more: seq<MoveRow>, last: int)
    requires IncreasingRows(rows, last) && forall k :: 0 <= k < |more| ==> more[k].id == last + 1 + k
    ensures IncreasingRows(rows + more, last + |more|)
  {
  }

  ghost predicate Accepted(t: Tables, ledger: string, reference: string, es: seq<Entry>) {
    !Taken(t.transactions, ledger, reference) && FirstRefused(es) == |es|
  }

  /** The rows of an accepted insert of two moves per posting. */
  lemma AcceptedRows(t: Tables, ledger: string, reference: string, es: seq<Entry>, flows: seq<Flow>)
    requires Accepted(t, ledger, reference, es) && |flows| == 2 * |es|
    ensures var t' := InsertRows(t, ledger, reference, es, flows).0;
      && t'.transactions == t.transactions + [TxRow(t.txSeq + 1, ledger, Column(reference), false)]
      && t'.postings == t.postings + PostingRows(ledger, t.txSeq + 1, t.postingSeq, es, |es|)
      && t'.moves == t.moves + MoveRows(ledger, t.txSeq + 1, t.postingSeq, t.moveSeq, flows, |flows|)
      && t'.moveSeq == t.moveSeq + |flows|
  {
  }

  /** Rows are appended with the flows they are made of and increasing ids. */
  lemma RowsAppended(t: Tables, t': Tables, ledger: string, flows: seq<Flow>)
    requires forall k :: 0 <= k < |flows| ==> flows[k].ledger == ledger
    requires IncreasingRows(t.moves, t.moveSeq) && t'.moveSeq == t.moveSeq + |flows|
    requires t'.moves == t.moves + MoveRows(ledger, t.txSeq + 1, t.postingSeq, t.moveSeq, flows, |flows|)
    ensures FlowsIn(t'.moves) == FlowsIn(t.moves) + flows && IncreasingRows(t'.moves, t'.moveSeq)
  {
    var more := MoveRows(ledger, t.txSeq + 1, t.postingSeq, t.moveSeq, flows, |flows|);
    RowFlows(ledger, t.txSeq + 1, t.postingSeq, t.moveSeq, flows);
    FlowsInAppend(t.moves, more);
    IncreasingAppend(t.moves, more, t.moveSeq);
  }

  lemma NewRowsPaired(ledger: string, es: seq<Entry>, stored: (string, string) -> Volume, txId: int, lastPosting: int,
                      last: int, k: nat)
    requires k < 2 * |es|
    ensures |Build(ledger, es, stored).moves| == 2 * |es|
    ensures OwnsMove(PostingRows(ledger, txId, lastPosting, es, |es|),
                     MoveRows(ledger, txId, lastPosting, last, Build(ledger, es, stored).moves, 2 * |es|)[k], k)
  {
    BuildShape(ledger, es, stored);
  }

  lemma OwnsLater(front: seq<PostingRow>, postings: seq<PostingRow>, row: MoveRow, k: nat)
    requires k / 2 < |postings| && OwnsMove(postings, row, k)
    ensures OwnsMove(front + postings, row, 2 * |front| + k)
  {
    assert (2 * |front| + k) / 2 == |front| + k / 2 && (2 * |front| + k) % 2 == k % 2;
  }

  lemma NewPairs(ledger: string, es: seq<Entry>, stored: (string, string) -> Volume, txId: int, lastPosting: int,
                 last: int,
                 postings: seq<PostingRow>, rows: seq<MoveRow>)
    requires |Build(ledger, es, stored).moves| == 2 * |es|
    requires postings == PostingRows(ledger, txId, lastPosting, es, |es|)
    requires rows == MoveRows(ledger, txId, lastPosting, last, Build(ledger, es, stored).moves, 2 * |es|)
    ensures PairedRows(postings, rows)
  {
    forall k | 0 <= k < |rows| ensures OwnsMove(postings, rows[k], k) {
      NewRowsPaired(ledger, es, stored, txId, lastPosting, last, k);
    }
  }

  lemma PairedAppend(front: seq<PostingRow>, frontRows: seq<MoveRow>, postings: seq<PostingRow>, rows: seq<MoveRow>)
    requires PairedRows(front, frontRows) && PairedRows(postings, rows)
    ensures PairedRows(front + postings, frontRows + rows)
  {
    forall k | 0 <= k < |frontRows + rows| ensures OwnsMove(front + postings, (frontRows + rows)[k], k) {
      if k < |frontRows| {
        assert OwnsMove(front, frontRows[k], k);
      } else {
        OwnsLater(front, postings, rows[k - |frontRows|], k - |frontRows|);
      }
    }
  }

  /** Inserting the moves built for a request pairs every one of them with its posting, or inserts none of them. */
  lemma InsertPairs(t: Tables, ledger: string, reference: string, es: seq<Entry>, stored: (string, string) -> Volume)
    requires PairedTables(t)
    ensures PairedTables(InsertRows(t, ledger, reference, es, Build(ledger, es, stored).moves).0)
  {
    if Accepted(t, ledger, reference, es) {
      var flows := Build(ledger, es, stored).moves;
      BuildShape(ledger, es, stored);
      var postings := PostingRows(ledger, t.txSeq + 1, t.postingSeq, es, |es|);
      var rows := MoveRows(ledger, t.txSeq + 1, t.postingSeq, t.moveSeq, flows, |flows|);
      AcceptedRows(t, ledger, reference, es, flows);
      NewPairs(ledger, es, stored, t.txSeq + 1, t.postingSeq, t.moveSeq, postings, rows);
      PairedAppend(t.postings, t.moves, postings, rows);
    }
  }

  lemma TakenAppend(rows: seq<TxRow>, row: TxRow, ledger: string, reference: string)
    ensures Taken(rows + [row], ledger, reference) <==>
      Taken(rows, ledger, reference) || (reference != "" && row.ledger == ledger && row.reference == Some(reference))
  {
    var all := rows + [row];
    if Taken(rows, ledger, reference) {
      var i :| 0 <= i < |rows| && rows[i].ledger == ledger && rows[i].reference == Some(reference);
      assert all[i] == rows[i];
    }
    assert all[|rows|] == row;
  }

  lemma ReferenceStep(txs: seq<Transaction>, rows: seq<TxRow>, tx: Transaction, row: TxRow, ledger: string, r: string)
    requires r != "" ==> (Taken(rows, ledger, r) <==> FindReference(txs, r).Some?)
    requires row.ledger == ledger && row.reference == Column(tx.reference)
    ensures r != "" ==> (Taken(rows + [row], ledger, r) <==> FindReference(txs + [tx], r).Some?)
  {
    TakenAppend(rows, row, ledger, r);
    LedgerEffects.HasAppend(txs, tx, r);
  }

  lemma ReferencesAgree(st: State, st': State, t: Tables, t': Tables, ledger: string, tx: Transaction, row: TxRow)
    requires Posted(st, st', ledger, tx) && t'.transactions == t.transactions + [row]
    requires row.ledger == ledger && row.reference == Column(tx.reference)
    requires forall l, r :: SameReference(st, t, l, r)
    ensures forall l, r :: SameReference(st', t', l, r)
  {
    forall l, r ensures SameReference(st', t', l, r) {
      assert SameReference(st, t, l, r);
      if l == ledger {
        ReferenceStep(Txs(st, l), t.transactions, tx, row, l, r);
        assert Txs(st', l) == Txs(st, l) + [tx];
      } else {
        TakenAppend(t.transactions, row, l, r);
        assert Txs(st', l) == Txs(st, l);
      }
    }
  }

  /** Both stores hand the service the same volumes, so it builds the same moves over either. */
  lemma SameBuild(st: State, t: Tables, ledger: string, es: seq<Entry>)
    requires Agree(st, t)
    ensures Build(ledger, es, PgStored(t.moves, ledger)).moves == NewFlows(Flows(st.moves), ledger, es)
  {
    forall account, asset
      ensures NewestVolume(t.moves, ledger, account, asset) == LatestVolume(Flows(st.moves), ledger, account, asset)
    {
      NewestVolumeIsLatest(t.moves, t.moveSeq, ledger, account, asset);
    }
    BuildDependsOnEnds(ledger, es, PgStored(t.moves, ledger), Stored(Flows(st.moves), ledger));
  }

  ghost predicate Inserted(t: Tables, t': Tables, flows: seq<Flow>, row: TxRow) {
    && IncreasingRows(t'.moves, t'.moveSeq)
    && FlowsIn(t'.moves) == FlowsIn(t.moves) + flows
    && PairedTables(t')
    && t'.transactions == t.transactions + [row]
  }

  lemma InsertedTables(t: Tables, ledger: string, reference: string, es: seq<Entry>, stored: (string, string) -> Volume)
    requires Accepted(t, ledger, reference, es)
    requires IncreasingRows(t.moves, t.moveSeq) && PairedTables(t)
    ensures Inserted(t, InsertRows(t, ledger, reference, es, Build(ledger, es, stored).moves).0,
                     Build(ledger, es, stored).moves,
                     TxRow(t.txSeq + 1, ledger, Column(reference), false))
  {
    var flows := Build(ledger, es, stored).moves;
    BuildShape(ledger, es, stored);
    AcceptedRows(t, ledger, reference, es, flows);
    RowsAppended(t, InsertRows(t, ledger, reference, es, flows).0, ledger, flows);
    InsertPairs(t, ledger, reference, es, stored);
  }

  lemma AgreeAfterInsert(st: State, st': State, t: Tables, t': Tables, ledger: string, tx: Transaction,
                         flows: seq<Flow>, row: TxRow)
    requires Agree(st, t) && Posted(st, st', ledger, tx)
    requires Inserted(t, t', flows, row) && row.ledger == ledger && row.reference == Column(tx.reference)
    requires flows == Build(ledger, Entries(tx.postings), PgStored(t.moves, ledger)).moves
    ensures Agree(st', t')
  {
    SameBuild(st, t, ledger, Entries(tx.postings));
    ReferencesAgree(st, st', t, t', ledger, tx, row);
  }

  lemma AgreeAfterPost(st: State, t: Tables, ledger: string, req: Request)
    requires Agree(st, t)
    ensures Agree(Post(st, ledger, req).0, PgPost(t, ledger, req))
  {
    assert SameReference(st, t, ledger, req.reference);
    if req.postings != [] && !Repeats(st, ledger, req) && FirstError(req.postings) == None {
      var es, stored := Entries(req.postings), PgStored(t.moves, ledger);
      CommitPosts(st, ledger, req);
      LedgerLaws.AllAcceptable(req.postings);
      InsertedTables(t, ledger, req.reference, es, stored);
      AgreeAfterInsert(st, Commit(st, ledger, req).0, t, PgPost(t, ledger, req), ledger, Commit(st, ledger, req).1,
                       Build(ledger, es, stored).moves, TxRow(t.txSeq + 1, ledger, Column(req.reference), false));
    }
  }

  /** Replaying posts over the SQL store. */
  function PgRun(ops: seq<Op>): Tables
    requires OnlyPosts(ops)
  {
    if ops == [] then NO_ROWS
    else
      var last := ops[|ops| - 1];
      PgPost(PgRun(ops[..|ops| - 1]), last.ledger, last.request)
  }

  lemma {:induction false} RunsAgree(ops: seq<Op>)
    requires OnlyPosts(ops)
    ensures Agree(Run(ops), PgRun(ops))
  {
    if ops == [] {
      forall ledger, reference ensures SameReference(EMPTY, NO_ROWS, ledger, reference) {
        assert Txs(EMPTY, ledger) == [];
      }
    } else {
      var n := |ops| - 1;
      RunsAgree(ops[..n]);
      AgreeAfterPost(Run(ops[..n]), PgRun(ops[..n]), ops[n].ledger, ops[n].request);
    }
  }

  /** Store agreement: after the same posts, the highest-id row and the backward scan report the same volumes. */
  lemma StoresAgree(ops: seq<Op>, ledger: string, account: string, asset: string)
    requires OnlyPosts(ops)
    ensures NewestVolume(PgRun(ops).moves, ledger, account, asset) ==
            LatestVolume(Flows(Run(ops).moves), ledger, account, asset)
    ensures PairedTables(PgRun(ops))
  {
    RunsAgree(ops);
    NewestVolumeIsLatest(PgRun(ops).moves, PgRun(ops).moveSeq, ledger, account, asset);
  }
}
