/** The SQL store as tables of rows with ids: the pairing loop, the unique reference index, the newest-row queries. */
module PgStore {
  import opened Outcomes
  import opened Decimal
  import opened LedgerTypes
  import opened Volumes
  import opened Ledger

  /** The reference column is null for an empty reference. */
  datatype TxRow = TxRow(id: int, ledger: string, reference: Option<string>, reverted: bool)

  datatype PostingRow = PostingRow(id: int, ledger: string, txId: int, entry: Entry)

  datatype MoveRow = MoveRow(id: int, txId: int, postingId: int, flow: Flow)

  /** Each table draws its ids from its own sequence. */
  datatype Tables = Tables(transactions: seq<TxRow>, postings: seq<PostingRow>, moves: seq<MoveRow>,
                           txSeq: int, postingSeq: int, moveSeq: int)

  const NO_ROWS := Tables([], [], [], 0, 0, 0)

  function Column(reference: string): Option<string> {
    if reference == "" then None else Some(reference)
  }

  /** The unique index on (ledger, reference) already holds this pair; null references are never indexed. */
  predicate Taken(rows: seq<TxRow>, ledger: string, reference: string) {
    reference != "" && exists i :: 0 <= i < |rows| && rows[i].ledger == ledger && rows[i].reference == Some(reference)
  }

  /** The rows of the first n postings. */
  function PostingRows(ledger: string, txId: int, last: int, es: seq<Entry>, n: nat): seq<PostingRow>
    requires n <= |es|
  {
    seq(n, i requires 0 <= i < n => PostingRow(last + 1 + i, ledger, txId, es[i]))
  }

  /** The rows of the first n moves, each under the id of its posting. */
  function MoveRows(ledger: string, txId: int, lastPosting: int, last: int, flows: seq<Flow>, n: nat): seq<MoveRow>
    requires n <= |flows|
  {
    seq(n, k requires 0 <= k < n => MoveRow(last + 1 + k, txId, lastPosting + 1 + k / 2, flows[k].(ledger := ledger)))
  }

  /** How many of the moves the loop has written after n postings: at most two per posting. */
  function Written(n: nat, length: nat): nat {
    if 2 * n <= length then 2 * n else length
  }

  /** The first entry the CHECK on a posting's amount refuses; the length when it lets them all through. */
  function FirstRefused(es: seq<Entry>): (n: nat)
    ensures n <= |es| && (n < |es| ==> es[n].amount <= 0)
    ensures forall i :: 0 <= i < n ==> es[i].amount > 0
  {
    if es == [] then 0
    else
      var n := FirstRefused(es[..|es| - 1]);
      if n < |es| - 1 || es[|es| - 1].amount <= 0 then n else |es|
  }

  /** InsertTransaction: a taken reference or a refused amount rolls the rows back and leaves the drawn ids spent. */
  function InsertRows(t: Tables, ledger: string, reference: string, es: seq<Entry>, flows: seq<Flow>)
    : (Tables, Result<int>)
  {
    var id, n := t.txSeq + 1, FirstRefused(es);
    if Taken(t.transactions, ledger, reference) then (t.(txSeq := id), Err(DuplicateReference))
    else if n < |es| then
      (t.(txSeq := id, postingSeq := t.postingSeq + n + 1, moveSeq := t.moveSeq + Written(n, |flows|)),
       Err(AmountRefused(n)))
    else
      (Tables(t.transactions + [TxRow(id, ledger, Column(reference), false)],
              t.postings + PostingRows(ledger, id, t.postingSeq, es, n),
              t.moves + MoveRows(ledger, id, t.postingSeq, t.moveSeq, flows, Written(n, |flows|)),
              id, t.postingSeq + n, t.moveSeq + Written(n, |flows|)), Ok(id))
  }

  /*** The newest-row query ***/

  predicate Matches(row: MoveRow, ledger: string, account: string, asset: string) {
    row.flow.ledger == ledger && row.flow.account == account && row.flow.asset == asset
  }

  /** ORDER BY id DESC LIMIT 1 over the matching rows, in whatever order the table holds them. */
  function Newest(rows: seq<MoveRow>, ledger: string, account: string, asset: string): Option<MoveRow> {
    if rows == [] then None
    else
      var best, row := Newest(rows[..|rows| - 1], ledger, account, asset), rows[|rows| - 1];
      if Matches(row, ledger, account, asset) && (best == None || row.id > best.value.id) then Some(row) else best
  }

  function NewestVolume(rows: seq<MoveRow>, ledger: string, account: string, asset: string): Volume {
    match Newest(rows, ledger, account, asset)
    case None => Volume(0, 0)
    case Some(row) => PostVolume(row.flow)
  }

  lemma {:induction false} NewestMeaning(rows: seq<MoveRow>, ledger: string, account: string, asset: string)
    ensures match Newest(rows, ledger, account, asset)
            case None => forall i :: 0 <= i < |rows| ==> !Matches(rows[i], ledger, account, asset)
            case Some(row) =>
              && row in rows && Matches(row, ledger, account, asset)
              && forall i :: 0 <= i < |rows| && Matches(rows[i], ledger, account, asset) ==> rows[i].id <= row.id
  {
    if rows != [] {
      NewestMeaning(rows[..|rows| - 1], ledger, account, asset);
      assert rows == rows[..|rows| - 1] + [rows[|rows| - 1]];
    }
  }

  function FlowsIn(rows: seq<MoveRow>): seq<Flow> {
    seq(|rows|, i requires 0 <= i < |rows| => rows[i].flow)
  }

  ghost predicate IncreasingRows(rows: seq<MoveRow>, last: int) {
    && (forall i :: 0 <= i < |rows| ==> rows[i].id <= last)
    && (forall i, j :: 0 <= i < j < |rows| ==> rows[i].id < rows[j].id)
  }

  lemma {:induction false} NewestIsLatest(rows: seq<MoveRow>, last: int, ledger: string, account: string, asset: string)
    requires IncreasingRows(rows, last)
    ensures Latest(FlowsIn(rows), ledger, account, asset) ==
      match Newest(rows, ledger, account, asset)
      case None => None
      case Some(row) => Some(row.flow)
  {
    if rows != [] {
      var front := rows[..|rows| - 1];
      NewestIsLatest(front, last, ledger, account, asset);
      NewestMeaning(front, ledger, account, asset);
      assert FlowsIn(rows)[..|rows| - 1] == FlowsIn(front);
    }
  }

  /** Highest id and last in the list are the same row, so both stores read the same volumes. */
  lemma NewestVolumeIsLatest(rows: seq<MoveRow>, last: int, ledger: string, account: string, asset: string)
    requires IncreasingRows(rows, last)
    ensures NewestVolume(rows, ledger, account, asset) == LatestVolume(FlowsIn(rows), ledger, account, asset)
  {
    NewestIsLatest(rows, last, ledger, account, asset);
  }

  predicate NewestAt(newest: map<string, MoveRow>, rows: seq<MoveRow>, ledger: string, account: string, asset: string) {
    Newest(rows, ledger, account, asset) == if asset in newest then Some(newest[asset]) else None
  }

  /*** The posting loop ***/

  function NextIndex(start: nat, length: nat): nat {
    if start + 2 <= length then start + 2 else length
  }

  /** The slice with moves lo..hi assigned to one posting. */
  function WithPosting(ms: seq<Move>, lo: nat, hi: nat, txId: int, postingId: int): seq<Move> {
    seq(|ms|, k requires 0 <= k < |ms| => if lo <= k < hi then ms[k].(txId := txId, postingId := postingId) else ms[k])
  }

  /** The caller's moves once the first n have been written. */
  function Filled(ms: seq<Move>, n: nat, txId: int, lastPosting: int): seq<Move> {
    seq(|ms|, k requires 0 <= k < |ms| =>
      if k < n then ms[k].(txId := txId, postingId := lastPosting + 1 + k / 2) else ms[k])
  }

  /** The caller's postings once the first n have their ids. */
  function Numbered(ps: seq<Posting>, n: nat, txId: int, lastPosting: int): seq<Posting> {
    seq(|ps|, k requires 0 <= k < |ps| =>
      if k < n then ps[k].(id := lastPosting + 1 + k, txId := txId) else ps[k])
  }

  /** The rows of moves lo..hi. */
  function RowsOf(ledger: string, ms: seq<Move>, lo: nat, hi: nat, last: int): seq<MoveRow>
    requires lo <= hi <= |ms|
  {
    seq(hi - lo, k requires 0 <= k < hi - lo =>
      MoveRow(last + 1 + k, ms[lo + k].txId, ms[lo + k].postingId, FlowOf(ms[lo + k]).(ledger := ledger)))
  }

  /** The texts that reach a numeric column are integers. */
  predicate IntegerTexts(ps: seq<Posting>, ms: seq<Move>) {
    && (forall i :: 0 <= i < |ps| ==> Parse(ps[i].amount).Some?)
    && (forall k :: 0 <= k < |ms| && k < 2 * |ps| ==>
          Parse(ms[k].amount).Some? && Parse(ms[k].postInputs).Some? && Parse(ms[k].postOutputs).Some?)
  }

  /** What the posting loop works on: two tables, their sequences and the caller's two slices. */
  datatype Inserting = Inserting(postings: seq<PostingRow>, moves: seq<MoveRow>, postingSeq: int, moveSeq: int,
                                 ps: seq<Posting>, ms: seq<Move>)

  /** One pass for a posting whose amount is accepted. */
  function OneLeg(now: Inserting, ledger: string, txId: int, i: nat, start: nat): Inserting
    requires i < |now.ps| && start <= |now.ms|
  {
    var id, moveIdx := now.postingSeq + 1, NextIndex(start, |now.ms|);
    var ms := WithPosting(now.ms, start, moveIdx, txId, id);
    Inserting(now.postings + [PostingRow(id, ledger, txId, EntryOf(now.ps[i]))],
              now.moves + RowsOf(ledger, ms, start, moveIdx, now.moveSeq),
              id, now.moveSeq + (moveIdx - start), now.ps[i := now.ps[i].(id := id, txId := txId)], ms)
  }

  /** One pass of the loop and the next move to write; a refused amount only spends a posting id. */
  function Leg(now: Inserting, ledger: string, txId: int, i: nat, start: nat): (Inserting, Result<nat>)
    requires i < |now.ps| && start <= |now.ms|
  {
    if EntryOf(now.ps[i]).amount > 0 then (OneLeg(now, ledger, txId, i, start), Ok(NextIndex(start, |now.ms|)))
    else (now.(postingSeq := now.postingSeq + 1), Err(AmountRefused(i)))
  }

  /** After n postings: their rows and those of their moves, and the ids written to the slices so far. */
  function AfterLegs(from: Inserting, ledger: string, txId: int, n: nat): Inserting
    requires n <= |from.ps|
  {
    var w := Written(n, |from.ms|);
    Inserting(from.postings + PostingRows(ledger, txId, from.postingSeq, Entries(from.ps), n),
              from.moves + MoveRows(ledger, txId, from.postingSeq, from.moveSeq, Flows(from.ms), w),
              from.postingSeq + n, from.moveSeq + w,
              Numbered(from.ps, n, txId, from.postingSeq), Filled(from.ms, w, txId, from.postingSeq))
  }

  /** The whole loop: it stops at the first refused amount, whose id is spent. */
  function AllLegs(from: Inserting, ledger: string, txId: int): (Inserting, Result<()>) {
    var n := FirstRefused(Entries(from.ps));
    var after := AfterLegs(from, ledger, txId, n);
    if n < |from.ps| then (after.(postingSeq := after.postingSeq + 1), Err(AmountRefused(n))) else (after, Ok(()))
  }

  /** The caller's slices after an insert: the ids written before the first refused amount stay. */
  function Slices(t: Tables, ledger: string, reference: string, ps: seq<Posting>, ms: seq<Move>)
    : (seq<Posting>, seq<Move>)
  {
    if Taken(t.transactions, ledger, reference) then (ps, ms)
    else
      var n, txId := FirstRefused(Entries(ps)), t.txSeq + 1;
      (Numbered(ps, n, txId, t.postingSeq), Filled(ms, Written(n, |ms|), txId, t.postingSeq))
  }

  /** The transaction's row and the loop make up the insert; after a refusal only the sequences differ. */
  lemma LegsInserted(t: Tables, ledger: string, reference: string, ps: seq<Posting>, ms: seq<Move>)
    requires !Taken(t.transactions, ledger, reference)
    ensures var from := Inserting(t.postings, t.moves, t.postingSeq, t.moveSeq, ps, ms);
      var (now, r) := AllLegs(from, ledger, t.txSeq + 1);
      && InsertRows(t, ledger, reference, Entries(ps), Flows(ms)) ==
         (if r.Err? then (Tables(t.transactions, t.postings, t.moves, t.txSeq + 1, now.postingSeq, now.moveSeq),
                          Err(r.error))
          else (Tables(t.transactions + [TxRow(t.txSeq + 1, ledger, Column(reference), false)], now.postings, now.moves,
                       t.txSeq + 1, now.postingSeq, now.moveSeq), Ok(t.txSeq + 1)))
      && (now.ps, now.ms) == Slices(t, ledger, reference, ps, ms)
  {
  }

  lemma NoLegs(from: Inserting, ledger: string, txId: int)
    ensures AfterLegs(from, ledger, txId, 0) == from
  {
    assert Filled(from.ms, 0, txId, from.postingSeq) == from.ms;
    assert Numbered(from.ps, 0, txId, from.postingSeq) == from.ps;
  }

  lemma Associates<T>(a: seq<T>, b: seq<T>, c: seq<T>)
    ensures a + b + c == a + (b + c)
  {
  }

  lemma PostingStep(ledger: string, txId: int, last: int, ps: seq<Posting>, i: nat)
    requires i < |ps|
    ensures PostingRows(ledger, txId, last, Entries(ps), i + 1) ==
            PostingRows(ledger, txId, last, Entries(ps), i) + [PostingRow(last + i + 1, ledger, txId, EntryOf(ps[i]))]
    ensures Numbered(ps, i, txId, last)[i := ps[i].(id := last + i + 1, txId := txId)] ==
      Numbered(ps, i + 1, txId, last)
    ensures Numbered(ps, i, txId, last)[i] == ps[i]
  {
  }

  lemma PostingsGrow(from: Inserting, ledger: string, txId: int, i: nat)
    requires i < |from.ps|
    ensures var es := Entries(from.ps);
      from.postings + PostingRows(ledger, txId, from.postingSeq, es, i) +
        [PostingRow(from.postingSeq + i + 1, ledger, txId, EntryOf(from.ps[i]))] ==
      from.postings + PostingRows(ledger, txId, from.postingSeq, es, i + 1)
  {
    PostingStep(ledger, txId, from.postingSeq, from.ps, i);
    Associates(from.postings, PostingRows(ledger, txId, from.postingSeq, Entries(from.ps), i),
               [PostingRow(from.postingSeq + i + 1, ledger, txId, EntryOf(from.ps[i]))]);
  }

  lemma RowOfFilled(ledger: string, ms: seq<Move>, n: nat, txId: int, lastPosting: int, k: nat)
    requires k < n <= |ms|
    ensures var m := Filled(ms, n, txId, lastPosting)[k];
      && m.txId == txId && m.postingId == lastPosting + 1 + k / 2
      && FlowOf(m) == Flows(ms)[k]
  {
  }

  lemma Extends<T>(all: seq<T>, front: seq<T>, more: seq<T>)
    requires |all| == |front| + |more|
    requires forall k :: 0 <= k < |front| ==> all[k] == front[k]
    requires forall k :: |front| <= k < |all| ==> all[k] == more[k - |front|]
    ensures all == front + more
  {
  }

  lemma RowsStep(ledger: string, txId: int, lastPosting: int, last: int, ms: seq<Move>, s: nat, e: nat)
    requires s <= e <= |ms|
    ensures MoveRows(ledger, txId, lastPosting, last, Flows(ms), e) ==
            MoveRows(ledger, txId, lastPosting, last, Flows(ms), s) +
            RowsOf(ledger, Filled(ms, e, txId, lastPosting), s, e, last + s)
  {
    var all, front := MoveRows(ledger, txId, lastPosting, last, Flows(ms), e),
                      MoveRows(ledger, txId, lastPosting, last, Flows(ms), s);
    var more := RowsOf(ledger, Filled(ms, e, txId, lastPosting), s, e, last + s);
    forall k | s <= k < e ensures all[k] == more[k - s] {
      RowOfFilled(ledger, ms, e, txId, lastPosting, k);
    }
    Extends(all, front, more);
  }

  lemma MovesGrow(from: Inserting, ledger: string, txId: int, s: nat, e: nat)
    requires s <= e <= |from.ms|
    ensures var flows, after := Flows(from.ms), Filled(from.ms, e, txId, from.postingSeq);
      from.moves + MoveRows(ledger, txId, from.postingSeq, from.moveSeq, flows, s) +
        RowsOf(ledger, after, s, e, from.moveSeq + s) ==
      from.moves + MoveRows(ledger, txId, from.postingSeq, from.moveSeq, flows, e)
  {
    RowsStep(ledger, txId, from.postingSeq, from.moveSeq, from.ms, s, e);
    Associates(from.moves, MoveRows(ledger, txId, from.postingSeq, from.moveSeq, Flows(from.ms), s),
               RowsOf(ledger, Filled(from.ms, e, txId, from.postingSeq), s, e, from.moveSeq + s));
  }

  lemma FilledStep(txId: int, lastPosting: int, ms: seq<Move>, i: nat)
    ensures var s, e := Written(i, |ms|), Written(i + 1, |ms|);
      && e == NextIndex(s, |ms|)
      && WithPosting(Filled(ms, s, txId, lastPosting), s, e, txId, lastPosting + i + 1) ==
        Filled(ms, e, txId, lastPosting)
  {
    forall k | Written(i, |ms|) <= k < Written(i + 1, |ms|) ensures k / 2 == i {
    }
  }

  lemma LegStep(from: Inserting, ledger: string, txId: int, i: nat)
    requires i < |from.ps|
    ensures OneLeg(AfterLegs(from, ledger, txId, i), ledger, txId, i, Written(i, |from.ms|)) ==
            AfterLegs(from, ledger, txId, i + 1)
  {
    PostingStep(ledger, txId, from.postingSeq, from.ps, i);
    FilledStep(txId, from.postingSeq, from.ms, i);
    PostingsGrow(from, ledger, txId, i);
    MovesGrow(from, ledger, txId, Written(i, |from.ms|), Written(i + 1, |from.ms|));
  }

  /** A pass either goes on to the next posting or ends the loop at the first refused amount. */
  lemma NextLeg(from: Inserting, ledger: string, txId: int, i: nat)
    requires i < |from.ps| && i <= FirstRefused(Entries(from.ps))
    ensures Leg(AfterLegs(from, ledger, txId, i), ledger, txId, i, Written(i, |from.ms|)) ==
      if i == FirstRefused(Entries(from.ps)) then (AllLegs(from, ledger, txId).0, Err(AmountRefused(i)))
      else (AfterLegs(from, ledger, txId, i + 1), Ok(Written(i + 1, |from.ms|)))
  {
    assert Entries(from.ps)[i] == EntryOf(from.ps[i]);
    LegStep(from, ledger, txId, i);
    FilledStep(txId, from.postingSeq, from.ms, i);
  }

  /** One more move gets its row; the earlier ones are as they were. */
  lemma OneMoreRow(ledger: string, before: seq<Move>, after: seq<Move>, lo: nat, hi: nat, last: int)
    requires lo <= hi < |before| == |after| && after[..hi] == before[..hi]
    ensures RowsOf(ledger, after, lo, hi + 1, last) == RowsOf(ledger, before, lo, hi, last) +
      [MoveRow(last + 1 + (hi - lo), after[hi].txId, after[hi].postingId, FlowOf(after[hi]).(ledger := ledger))]
  {
    forall k | 0 <= k < hi ensures after[k] == before[k] {
      assert after[..hi][k] == before[..hi][k];
    }
  }

  /*** Marking ***/

  predicate Revertible(row: TxRow, ledger: string, id: int) {
    row.ledger == ledger && row.id == id && !row.reverted
  }

  predicate CanRevert(rows: seq<TxRow>, ledger: string, id: int) {
    exists i :: 0 <= i < |rows| && Revertible(rows[i], ledger, id)
  }

  /** UPDATE ... SET reverted_at WHERE ledger, id and reverted_at IS NULL. */
  function MarkRows(rows: seq<TxRow>, ledger: string, id: int): seq<TxRow> {
    seq(|rows|, i requires 0 <= i < |rows| =>
      if Revertible(rows[i], ledger, id) then rows[i].(reverted := true) else rows[i])
  }

  /*** What an insert answers ***/

  predicate HasReference(rows: seq<TxRow>, ledger: string, reference: string) {
    exists i :: 0 <= i < |rows| && rows[i].ledger == ledger && rows[i].reference == Some(reference)
  }

  /** The first posting whose amount the table refuses. */
  predicate RefusedAt(es: seq<Entry>, i: nat) {
    i < |es| && es[i].amount <= 0 && forall k :: 0 <= k < i ==> es[k].amount > 0
  }

  /** A refused insert stores no row. A taken reference spends a transaction id; a refused amount also spends an id for
      every posting up to the refused one and for the two moves of each posting before it. */
  lemma InsertRefusals(t: Tables, ledger: string, reference: string, es: seq<Entry>, flows: seq<Flow>)
    ensures var (t', r) := InsertRows(t, ledger, reference, es, flows);
      && (reference != "" && HasReference(t.transactions, ledger, reference) ==>
            r == Err(DuplicateReference) && t' == t.(txSeq := t.txSeq + 1))
      && (reference == "" || !HasReference(t.transactions, ledger, reference) ==>
            forall i: nat :: RefusedAt(es, i) ==>
              && r == Err(AmountRefused(i))
              && t' == t.(txSeq := t.txSeq + 1, postingSeq := t.postingSeq + i + 1,
                          moveSeq := t.moveSeq + if 2 * i > |flows| then |flows| else 2 * i))
  {
  }

  /** Any other insert stores one row for the transaction, whose reference column is null for the empty string, one row
      per posting and one per move up to two per posting, each table numbering its own, and move k under posting k/2. */
  lemma InsertStores(t: Tables, ledger: string, reference: string, es: seq<Entry>, flows: seq<Flow>)
    requires reference == "" || !HasReference(t.transactions, ledger, reference)
    requires forall i :: 0 <= i < |es| ==> es[i].amount > 0
    ensures var (t', r) := InsertRows(t, ledger, reference, es, flows);
      var id, column := t.txSeq + 1, if reference == "" then None else Some(reference);
      var written := if 2 * |es| > |flows| then |flows| else 2 * |es|;
      && r == Ok(id) && t'.txSeq == id && t'.transactions == t.transactions + [TxRow(id, ledger, column, false)]
      && t'.postingSeq == t.postingSeq + |es| && |t'.postings| == |t.postings| + |es| && t.postings <= t'.postings
      && t'.moveSeq == t.moveSeq + written && |t'.moves| == |t.moves| + written && t.moves <= t'.moves
      && (forall k :: |t.postings| <= k < |t'.postings| ==>
            var i := k - |t.postings|;
            t'.postings[k] == PostingRow(t.postingSeq + 1 + i, ledger, id, es[i]))
      && (forall k :: |t.moves| <= k < |t'.moves| ==>
            var i := k - |t.moves|;
            t'.moves[k] == MoveRow(t.moveSeq + 1 + i, id, t.postingSeq + 1 + i / 2, flows[i].(ledger := ledger)))
  {
  }

  /** The caller's slices: postings and moves written before the insert stopped carry the row ids, the rest is as it
      was. */
  lemma SlicesMeaning(t: Tables, ledger: string, reference: string, ps: seq<Posting>, ms: seq<Move>)
    ensures var (ps', ms') := Slices(t, ledger, reference, ps, ms);
      var id, n := t.txSeq + 1, FirstRefused(Entries(ps));
      && |ps'| == |ps| && |ms'| == |ms| && n <= |ps| && (n < |ps| ==> RefusedAt(Entries(ps), n))
      && if reference != "" && HasReference(t.transactions, ledger, reference) then ps' == ps && ms' == ms
         else
           && (forall i :: 0 <= i < |ps| ==>
                 ps'[i] == if i < n then ps[i].(id := t.postingSeq + 1 + i, txId := id) else ps[i])
           && (forall k :: 0 <= k < |ms| ==>
                 ms'[k] == if k < 2 * n then ms[k].(txId := id, postingId := t.postingSeq + 1 + k / 2) else ms[k])
  {
  }

  /** A conditional update changes the mark of every unmarked row of that ledger and id, and nothing else. */
  lemma MarkMeaning(rows: seq<TxRow>, ledger: string, id: int)
    ensures |MarkRows(rows, ledger, id)| == |rows|
    ensures forall i :: 0 <= i < |rows| ==>
      var hit := rows[i].ledger == ledger && rows[i].id == id;
      MarkRows(rows, ledger, id)[i] == rows[i].(reverted := rows[i].reverted || hit)
  {
  }

  /** A statement some client sends; the database takes them in one order. */
  datatype Statement =
    | Insert(client: nat, ledger: string, reference: string, es: seq<Entry>, flows: seq<Flow>)
    | Mark(client: nat, ledger: string, id: int)

  function Executed(t: Tables, s: Statement): Tables {
    match s
    case Insert(_, ledger, reference, es, flows) => InsertRows(t, ledger, reference, es, flows).0
    case Mark(_, ledger, id) => t.(transactions := MarkRows(t.transactions, ledger, id))
  }

  function TablesAfter(ss: seq<Statement>): Tables {
    if ss == [] then NO_ROWS else Executed(TablesAfter(ss[..|ss| - 1]), ss[|ss| - 1])
  }

  /** The conditional update s affects a row, so its client is told it succeeded. */
  predicate Affects(t: Tables, s: Statement) {
    s.Mark? && CanRevert(t.transactions, s.ledger, s.id)
  }

  predicate AffectsAt(ss: seq<Statement>, k: nat, ledger: string, id: int)
    requires k < |ss|
  {
    Affects(TablesAfter(ss[..k]), ss[k]) && ss[k].ledger == ledger && ss[k].id == id
  }

  predicate MarkedIn(ss: seq<Statement>, ledger: string, id: int) {
    exists k :: 0 <= k < |ss| && AffectsAt(ss, k, ledger, id)
  }

  predicate HasRowOf(rows: seq<TxRow>, ledger: string, id: int) {
    exists i :: 0 <= i < |rows| && rows[i].ledger == ledger && rows[i].id == id
  }

  /** A row is marked exactly when some client's update affected it, and no id is marked before it is drawn. */
  ghost predicate MarksTold(t: Tables, ss: seq<Statement>) {
    && (forall row :: row in t.transactions ==>
          row.id <= t.txSeq && (row.reverted <==> MarkedIn(ss, row.ledger, row.id)))
    && forall ledger, id :: MarkedIn(ss, ledger, id) ==> id <= t.txSeq
  }

  lemma {:induction false} MarkedInAppend(ss: seq<Statement>, s: Statement, ledger: string, id: int)
    ensures MarkedIn(ss + [s], ledger, id) <==>
      MarkedIn(ss, ledger, id) || (Affects(TablesAfter(ss), s) && s.ledger == ledger && s.id == id)
  {
    var all := ss + [s];
    assert all[..|ss|] == ss && all[|ss|] == s;
    forall k | 0 <= k < |ss| ensures AffectsAt(all, k, ledger, id) <==> AffectsAt(ss, k, ledger, id) {
      assert all[..k] == ss[..k];
    }
    assert AffectsAt(all, |ss|, ledger, id) <==> Affects(TablesAfter(ss), s) && s.ledger == ledger && s.id == id;
  }

  lemma {:induction false} ToldAfter(t: Tables, ss: seq<Statement>, s: Statement)
    requires t == TablesAfter(ss) && MarksTold(t, ss)
    ensures MarksTold(Executed(t, s), ss + [s])
  {
    var t' := Executed(t, s);
    forall row | row in t'.transactions
      ensures row.id <= t'.txSeq && (row.reverted <==> MarkedIn(ss + [s], row.ledger, row.id))
    {
      MarkedInAppend(ss, s, row.ledger, row.id);
    }
    forall ledger, id | MarkedIn(ss + [s], ledger, id) ensures id <= t'.txSeq {
      MarkedInAppend(ss, s, ledger, id);
    }
  }

  lemma {:induction false} RunTold(ss: seq<Statement>)
    ensures MarksTold(TablesAfter(ss), ss)
  {
    if ss != [] {
      var n := |ss| - 1;
      RunTold(ss[..n]);
      ToldAfter(TablesAfter(ss[..n]), ss[..n], ss[n]);
      assert ss == ss[..n] + [ss[n]];
    }
  }

  /** After any statements of any clients, a conditional update succeeds exactly when the transaction has a row and no
      client's earlier update of it succeeded. */
  lemma MarkSucceedsIff(ss: seq<Statement>, ledger: string, id: int)
    ensures CanRevert(TablesAfter(ss).transactions, ledger, id) <==>
      HasRowOf(TablesAfter(ss).transactions, ledger, id) && !MarkedIn(ss, ledger, id)
  {
    var rows := TablesAfter(ss).transactions;
    RunTold(ss);
    if HasRowOf(rows, ledger, id) && !MarkedIn(ss, ledger, id) {
      var i :| 0 <= i < |rows| && rows[i].ledger == ledger && rows[i].id == id;
      assert Revertible(rows[i], ledger, id);
    }
  }

  /** However the clients' statements interleave, at most one client is told that it marked a given transaction. */
  lemma MarksOnce(ss: seq<Statement>, i: nat, j: nat, ledger: string, id: int)
    requires i < j < |ss| && AffectsAt(ss, i, ledger, id)
    ensures !AffectsAt(ss, j, ledger, id)
  {
    var before := ss[..j];
    assert before[..i] == ss[..i];
    assert AffectsAt(before, i, ledger, id);
    MarkSucceedsIff(before, ledger, id);
  }

  /*** The store ***/

  class Store {
    var transactions: seq<TxRow>
    var postings: seq<PostingRow>
    var moves: seq<MoveRow>
    var txSeq: int
    var postingSeq: int
    var moveSeq: int

    function View(): Tables
      reads this
    {
      Tables(transactions, postings, moves, txSeq, postingSeq, moveSeq)
    }

    constructor ()
      ensures View() == NO_ROWS
    {
      transactions, postings, moves := [], [], [];
      txSeq, postingSeq, moveSeq := 0, 0, 0;
    }

    /** INSERT INTO ledger_transactions ... RETURNING id; the sequence advances even when the index refuses the row. */
    method InsertTransactionRow(ledger: string, reference: string) returns (r: Result<int>)
      modifies `transactions, `txSeq
      ensures txSeq == old(txSeq) + 1
      ensures Taken(old(transactions), ledger, reference) ==>
        r == Err(DuplicateReference) && transactions == old(transactions)
      ensures !Taken(old(transactions), ledger, reference) ==>
        r == Ok(txSeq) && transactions == old(transactions) + [TxRow(txSeq, ledger, Column(reference), false)]
    {
      txSeq := txSeq + 1;
      if reference != "" {
        for i := 0 to |transactions|
          invariant !Taken(transactions[..i], ledger, reference)
          invariant txSeq == old(txSeq) + 1 && transactions == old(transactions)
        {
          if transactions[i].ledger == ledger && transactions[i].reference == Some(reference) {
            return Err(DuplicateReference);
          }
        }
        assert transactions[..|transactions|] == transactions;
      }
      transactions := transactions + [TxRow(txSeq, ledger, Column(reference), false)];
      r := Ok(txSeq);
    }

    /** A refused row still draws its id. */
    method InsertPostingRow(ledger: string, txId: int, index: nat, p: Posting) returns (r: Result<int>)
      modifies `postings, `postingSeq
      ensures postingSeq == old(postingSeq) + 1
      ensures EntryOf(p).amount <= 0 ==> r == Err(AmountRefused(index)) && postings == old(postings)
      ensures EntryOf(p).amount > 0 ==>
        r == Ok(postingSeq) && postings == old(postings) + [PostingRow(postingSeq, ledger, txId, EntryOf(p))]
    {
      postingSeq := postingSeq + 1;
      if EntryOf(p).amount <= 0 {
        return Err(AmountRefused(index));
      }
      postings := postings + [PostingRow(postingSeq, ledger, txId, EntryOf(p))];
      r := Ok(postingSeq);
    }

    method InsertMoveRow(ledger: string, m: Move)
      modifies `moves, `moveSeq
      ensures moveSeq == old(moveSeq) + 1
      ensures moves == old(moves) + [MoveRow(moveSeq, m.txId, m.postingId, FlowOf(m).(ledger := ledger))]
    {
      moveSeq := moveSeq + 1;
      moves := moves + [MoveRow(moveSeq, m.txId, m.postingId, FlowOf(m).(ledger := ledger))];
    }

    /** The inner loop: up to two moves take the posting's id, in place, and become rows. */
    method PairMoves(ledger: string, txId: int, postingID: int, ms: array<Move>, start: nat) returns (moveIdx: nat)
      requires start <= ms.Length
      modifies `moves, `moveSeq, ms
      ensures moveIdx == NextIndex(start, ms.Length) && moveSeq == old(moveSeq) + (moveIdx - start)
      ensures ms[..] == WithPosting(old(ms[..]), start, moveIdx, txId, postingID)
      ensures moves == old(moves) + RowsOf(ledger, ms[..], start, moveIdx, old(moveSeq))
    {
      moveIdx := start;
      var j := 0;
      while j < 2 && moveIdx < ms.Length
        invariant 0 <= j <= 2 && moveIdx == start + j <= ms.Length
        invariant moveSeq == old(moveSeq) + j
        invariant ms[..] == WithPosting(old(ms[..]), start, moveIdx, txId, postingID)
        invariant moves == old(moves) + RowsOf(ledger, ms[..], start, moveIdx, old(moveSeq))
      {
        ghost var done := ms[..];
        ms[moveIdx] := ms[moveIdx].(txId := txId, postingId := postingID);
        OneMoreRow(ledger, done, ms[..], start, moveIdx, moveSeq - j);
        InsertMoveRow(ledger, ms[moveIdx]);
        moveIdx := moveIdx + 1;
        j := j + 1;
      }
    }

    /** What the posting loop works on. */
    function Loop(ps: array<Posting>, ms: array<Move>): Inserting
      reads this, ps, ms
    {
      Inserting(postings, moves, postingSeq, moveSeq, ps[..], ms[..])
    }

    /** One pass of the posting loop. */
    method InsertLeg(ledger: string, txId: int, i: nat, ps: array<Posting>, ms: array<Move>, start: nat)
      returns (r: Result<nat>)
      requires i < ps.Length && start <= ms.Length
      modifies `postings, `postingSeq, `moves, `moveSeq, ps, ms
      ensures (Loop(ps, ms), r) == Leg(old(Loop(ps, ms)), ledger, txId, i, start)
    {
      var inserted := InsertPostingRow(ledger, txId, i, ps[i]);
      if inserted.Err? {
        return Err(inserted.error);
      }
      ps[i] := ps[i].(id := inserted.value, txId := txId);
      var moveIdx := PairMoves(ledger, txId, inserted.value, ms, start);
      r := Ok(moveIdx);
    }

    /** The posting loop: each posting becomes a row and hands its id to its moves, up to the first refused amount. */
    method InsertLegs(ledger: string, txId: int, ps: array<Posting>, ms: array<Move>) returns (r: Result<()>)
      modifies `postings, `postingSeq, `moves, `moveSeq, ps, ms
      ensures (Loop(ps, ms), r) == AllLegs(old(Loop(ps, ms)), ledger, txId)
    {
      var moveIdx := 0;
      ghost var from := Loop(ps, ms);
      NoLegs(from, ledger, txId);
      for i := 0 to ps.Length
        invariant i <= FirstRefused(Entries(from.ps))
        invariant moveIdx == Written(i, ms.Length)
        invariant Loop(ps, ms) == AfterLegs(from, ledger, txId, i)
      {
        NextLeg(from, ledger, txId, i);
        var inserted := InsertLeg(ledger, txId, i, ps, ms, moveIdx);
        if inserted.Err? {
          return Err(inserted.error);
        }
        moveIdx := inserted.value;
      }
      r := Ok(());
    }

    /** A refused row leaves no rows behind, only spent ids and the ids already written to the caller's slices. */
    method InsertTransaction(ledger: string, reference: string, ps: array<Posting>, ms: array<Move>)
      returns (r: Result<int>)
      requires IntegerTexts(ps[..], ms[..])
      modifies this, ps, ms
      ensures (View(), r) == InsertRows(old(View()), ledger, reference, Entries(old(ps[..])), Flows(old(ms[..])))
      ensures (ps[..], ms[..]) == Slices(old(View()), ledger, reference, old(ps[..]), old(ms[..]))
    {
      var transactions0, postings0, moves0 := transactions, postings, moves;
      ghost var t, ps0, ms0 := View(), ps[..], ms[..];
      r := InsertTransactionRow(ledger, reference);
      if r.Err? {
        return;
      }
      LegsInserted(t, ledger, reference, ps0, ms0);
      var legs := InsertLegs(ledger, r.value, ps, ms);
      if legs.Err? {
        transactions, postings, moves := transactions0, postings0, moves0;
        r := Err(legs.error);
      }
    }

    /** The conditional update: it reports an error when it affects no row. */
    method RevertTransaction(ledger: string, id: int) returns (r: Result<()>)
      modifies `transactions
      ensures transactions == MarkRows(old(transactions), ledger, id)
      ensures r == if CanRevert(old(transactions), ledger, id) then Ok(()) else Err(NotRevertible(id))
    {
      var n := 0;
      ghost var rows := transactions;
      for i := 0 to |transactions|
        invariant |transactions| == |rows|
        invariant forall k :: 0 <= k < |rows| ==>
          transactions[k] == if k < i then MarkRows(rows, ledger, id)[k] else rows[k]
        invariant n > 0 <==> exists k :: 0 <= k < i && Revertible(rows[k], ledger, id)
      {
        var row := transactions[i];
        if row.ledger == ledger && row.id == id && !row.reverted {
          transactions := transactions[i := row.(reverted := true)];
          n := n + 1;
        }
      }
      r := if n == 0 then Err(NotRevertible(id)) else Ok(());
    }

    /** The newest row's totals as text, or zeros when no row matches. */
    method GetAccountBalance(ledger: string, account: string, asset: string) returns (inputs: string, outputs: string)
      ensures inputs == Print(NewestVolume(moves, ledger, account, asset).ins)
      ensures outputs == Print(NewestVolume(moves, ledger, account, asset).outs)
    {
      var best: Option<MoveRow> := None;
      for i := 0 to |moves|
        invariant best == Newest(moves[..i], ledger, account, asset)
      {
        assert moves[..i + 1][..i] == moves[..i];
        if Matches(moves[i], ledger, account, asset) && (best == None || moves[i].id > best.value.id) {
          best := Some(moves[i]);
        }
      }
      assert moves[..|moves|] == moves;
      if best == None {
        assert Print(0) == "0";
        return "0", "0";
      }
      return Print(best.value.flow.ins), Print(best.value.flow.outs);
    }

    /** DISTINCT ON (asset): the newest row of each asset of the account. */
    method NewestByAsset(ledger: string, account: string) returns (newest: map<string, MoveRow>)
      ensures forall asset :: NewestAt(newest, moves, ledger, account, asset)
    {
      newest := map[];
      for i := 0 to |moves|
        invariant forall asset :: NewestAt(newest, moves[..i], ledger, account, asset)
      {
        ghost var before := newest;
        var row := moves[i];
        assert moves[..i + 1][..i] == moves[..i];
        assert NewestAt(before, moves[..i], ledger, account, row.flow.asset);
        if row.flow.ledger == ledger && row.flow.account == account {
          if row.flow.asset !in newest || row.id > newest[row.flow.asset].id {
            newest := newest[row.flow.asset := row];
          }
        }
        ghost var seen := moves[..i + 1];
        forall asset ensures NewestAt(newest, seen, ledger, account, asset) {
          assert NewestAt(before, moves[..i], ledger, account, asset);
        }
      }
      assert moves[..|moves|] == moves;
    }
  }
}
