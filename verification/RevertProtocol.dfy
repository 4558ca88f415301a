/** RevertTransaction as read, look up, post and mark, with any number of clients interleaving, stopping and
    retrying. */
module RevertProtocol {
  import opened Outcomes
  import opened Decimal
  import opened LedgerTypes
  import opened Effects
  import opened Ledger
  import opened LedgerSteps
  import opened LedgerLaws
  import LedgerRuns

  /** Where a revert call stands: original read, reference looked up in vain, or reversal in hand. */
  datatype Client =
    | Reading(ledger: string, id: int, postings: seq<Posting>)
    | Missing(ledger: string, id: int, postings: seq<Posting>)
    | Marking(ledger: string, id: int)

  datatype System = System(books: State, clients: map<nat, Client>)

  /** The moves an insert carries depend on reads that may interleave in any way, so they are arbitrary here. */
  datatype Action =
    | Find(client: nat, ledger: string, id: int)
    | LookUp(client: nat)
    | Insert(client: nat, moves: seq<Move>)
    | Mark(client: nat)
    | Stop(client: nat)
    | OtherPost(ledger: string, request: Request, moves: seq<Move>)

  /** A store's insert: one with the unique index refuses a reference it already holds, the in-memory one does not. */
  function TryInsert(unique: bool, st: State, ledger: string, reference: string, ps: seq<Posting>,
                     moves: seq<Move>): Option<State> {
    if unique && Repeats(st, ledger, Request(reference, ps)) then None
    else Some(Ledger.Insert(st, ledger, reference, ps, moves))
  }

  ghost predicate NotRevert(reference: string) {
    forall id :: reference != RevertReference(id)
  }

  predicate ValidRequest(req: Request) {
    req.postings != [] && FirstError(req.postings) == None
  }

  function AfterFind(sys: System, client: nat, ledger: string, id: int): System {
    var txs := Txs(sys.books, ledger);
    match FindId(txs, id)
    case None => sys
    case Some(i) =>
      if txs[i].reverted then sys
      else sys.(clients := sys.clients[client := Reading(ledger, id, txs[i].postings)])
  }

  function AfterLookUp(sys: System, client: nat, c: Client): System
    requires c.Reading?
  {
    var found := FindReference(Txs(sys.books, c.ledger), RevertReference(c.id)).Some?;
    var c' := if found then Marking(c.ledger, c.id) else Missing(c.ledger, c.id, c.postings);
    sys.(clients := sys.clients[client := c'])
  }

  function AfterInsert(unique: bool, sys: System, client: nat, c: Client, moves: seq<Move>): System
    requires c.Missing?
  {
    match TryInsert(unique, sys.books, c.ledger, RevertReference(c.id), SwapPostings(c.postings), moves)
    case None => sys.(clients := sys.clients - {client})
    case Some(books) => System(books, sys.clients[client := Marking(c.ledger, c.id)])
  }

  function AfterMark(sys: System, client: nat, c: Client): System {
    System(MarkReverted(sys.books, c.ledger, c.id).0, sys.clients - {client})
  }

  function AfterOther(unique: bool, sys: System, ledger: string, req: Request, moves: seq<Move>): System {
    match TryInsert(unique, sys.books, ledger, req.reference, req.postings, moves)
    case None => sys
    case Some(books) => sys.(books := books)
  }

  /** One store call of one client; an action that is not enabled does nothing. */
  ghost function Step(unique: bool, sys: System, a: Action): System {
    match a
    case Find(client, ledger, id) =>
      if client in sys.clients then sys else AfterFind(sys, client, ledger, id)
    case LookUp(client) =>
      if client in sys.clients && sys.clients[client].Reading?
        then AfterLookUp(sys, client, sys.clients[client]) else sys
    case Insert(client, moves) =>
      if client in sys.clients && sys.clients[client].Missing?
      then AfterInsert(unique, sys, client, sys.clients[client], moves) else sys
    case Mark(client) =>
      if client in sys.clients && sys.clients[client].Marking? then AfterMark(sys, client, sys.clients[client]) else sys
    case Stop(client) => sys.(clients := sys.clients - {client})
    case OtherPost(ledger, req, moves) =>
      if ValidRequest(req) && NotRevert(req.reference) then AfterOther(unique, sys, ledger, req, moves) else sys
  }

  ghost function StepsFrom(unique: bool, sys: System, actions: seq<Action>): System {
    if actions == [] then sys
    else Step(unique, StepsFrom(unique, sys, actions[..|actions| - 1]), actions[|actions| - 1])
  }

  ghost function Steps(unique: bool, actions: seq<Action>): System {
    StepsFrom(unique, System(EMPTY, map[]), actions)
  }

  /*** What holds of the transaction lists ***/

  ghost predicate ReversesAt(txs: seq<Transaction>, i: nat, j: nat, id: int)
    requires i < |txs|
  {
    j < i && txs[j].id == id && Entries(txs[i].postings) == Swap(Entries(txs[j].postings))
  }

  /** A transaction under revert:<id> carries the swapped postings of an earlier transaction with that id. */
  ghost predicate ReversesEarlier(txs: seq<Transaction>, i: nat)
    requires i < |txs|
  {
    forall id :: txs[i].reference == RevertReference(id) ==> exists j: nat :: ReversesAt(txs, i, j, id)
  }

  ghost predicate HasReversal(txs: seq<Transaction>, id: int) {
    exists i :: 0 <= i < |txs| && txs[i].reference == RevertReference(id)
  }

  ghost predicate Stored(txs: seq<Transaction>, id: int, postings: seq<Posting>) {
    exists i :: 0 <= i < |txs| && txs[i].id == id && txs[i].postings == postings
  }

  ghost predicate AllReverseEarlier(txs: seq<Transaction>) {
    forall i :: 0 <= i < |txs| ==> ReversesEarlier(txs, i)
  }

  /** A transaction is marked only once its reversal is stored. */
  ghost predicate MarkedHaveReversals(txs: seq<Transaction>) {
    forall i :: 0 <= i < |txs| && txs[i].reverted ==> HasReversal(txs, txs[i].id)
  }

  ghost predicate ListOk(st: State, ledger: string) {
    var txs := Txs(st, ledger);
    WellKept(st, ledger) && AllReverseEarlier(txs) && MarkedHaveReversals(txs)
  }

  ghost predicate ClientOk(st: State, c: Client) {
    var txs := Txs(st, c.ledger);
    match c
    case Reading(_, id, postings) => Stored(txs, id, postings)
    case Missing(_, id, postings) => Stored(txs, id, postings)
    case Marking(_, id) => HasReversal(txs, id)
  }

  ghost predicate Sound(sys: System) {
    && sys.books.nextID >= 0
    && (forall ledger :: ListOk(sys.books, ledger))
    && forall client :: client in sys.clients ==> ClientOk(sys.books, sys.clients[client])
  }

  /** Lists only grow, and old entries change at most their mark. */
  ghost predicate Extends(txs: seq<Transaction>, txs': seq<Transaction>) {
    && |txs| <= |txs'|
    && forall i :: 0 <= i < |txs| ==> txs'[i] == txs[i].(reverted := txs'[i].reverted)
  }

  lemma ExtendsKeeps(txs: seq<Transaction>, txs': seq<Transaction>, id: int, postings: seq<Posting>)
    requires Extends(txs, txs')
    ensures HasReversal(txs, id) ==> HasReversal(txs', id)
    ensures Stored(txs, id, postings) ==> Stored(txs', id, postings)
  {
    if HasReversal(txs, id) {
      var i :| 0 <= i < |txs| && txs[i].reference == RevertReference(id);
      assert txs'[i].reference == RevertReference(id);
    }
    if Stored(txs, id, postings) {
      var i :| 0 <= i < |txs| && txs[i].id == id && txs[i].postings == postings;
      assert txs'[i].id == id && txs'[i].postings == postings;
    }
  }

  lemma ReversesStays(txs: seq<Transaction>, txs': seq<Transaction>, i: nat)
    requires Extends(txs, txs') && i < |txs| && ReversesEarlier(txs, i)
    ensures ReversesEarlier(txs', i)
  {
    forall id | txs'[i].reference == RevertReference(id) ensures exists j: nat :: ReversesAt(txs', i, j, id) {
      var j: nat :| ReversesAt(txs, i, j, id);
      assert ReversesAt(txs', i, j, id);
    }
  }

  lemma ClientStays(st: State, st': State, c: Client)
    requires ClientOk(st, c) && Extends(Txs(st, c.ledger), Txs(st', c.ledger))
    ensures ClientOk(st', c)
  {
    ExtendsKeeps(Txs(st, c.ledger), Txs(st', c.ledger), c.id, if c.Marking? then [] else c.postings);
  }

  /*** Steps keep it ***/

  lemma AppendKeepsReversals(txs: seq<Transaction>, tx: Transaction)
    requires AllReverseEarlier(txs) && ReversesEarlier(txs + [tx], |txs|)
    ensures AllReverseEarlier(txs + [tx])
  {
    hide ReversesEarlier;
    var txs' := txs + [tx];
    forall i | 0 <= i < |txs'| ensures ReversesEarlier(txs', i) {
      if i < |txs| { ReversesStays(txs, txs', i); }
    }
  }

  lemma AppendKeepsMarks(txs: seq<Transaction>, tx: Transaction)
    requires MarkedHaveReversals(txs) && !tx.reverted
    ensures MarkedHaveReversals(txs + [tx])
  {
    var txs' := txs + [tx];
    forall i | 0 <= i < |txs'| && txs'[i].reverted ensures HasReversal(txs', txs'[i].id) {
      assert txs'[i] == txs[i];
      ExtendsKeeps(txs, txs', txs[i].id, []);
    }
  }

  lemma AppendKeepsList(st: State, st': State, l: string, tx: Transaction)
    requires ListOk(st, l) && Txs(st', l) == Txs(st, l) + [tx] && st'.nextID >= st.nextID >= 0
    requires Valid(tx, l, st'.nextID) && tx.id > st.nextID && !tx.reverted
    requires tx.reference == "" || FindReference(Txs(st, l), tx.reference) == None
    requires ReversesEarlier(Txs(st, l) + [tx], |Txs(st, l)|)
    ensures ListOk(st', l)
  {
    var txs := Txs(st, l);
    assert forall i :: 0 <= i < |txs| ==> Valid(txs[i], l, st.nextID);
    WellKeptAppend(txs, tx);
    AppendKeepsReversals(txs, tx);
    AppendKeepsMarks(txs, tx);
  }

  lemma SameList(st: State, st': State, l: string)
    requires ListOk(st, l) && Txs(st', l) == Txs(st, l) && st'.nextID >= st.nextID
    ensures ListOk(st', l)
  {
    var txs := Txs(st, l);
    assert forall i :: 0 <= i < |txs| ==> Valid(txs[i], l, st.nextID);
  }

  lemma SameRevertReference(a: int, b: int)
    requires RevertReference(a) == RevertReference(b)
    ensures a == b
  {
    assert RevertReference(a)[7..] == Print(a) && RevertReference(b)[7..] == Print(b);
    PrintInjective(a, b);
  }

  lemma ReversalIsPlaced(st: State, ledger: string, tx: Transaction, ps: seq<Posting>)
    requires Entries(tx.postings) == Entries(ps)
    requires NotRevert(tx.reference) ||
      exists id, postings ::
        tx.reference == RevertReference(id) && Stored(Txs(st, ledger), id, postings) && ps == SwapPostings(postings)
    ensures ReversesEarlier(Txs(st, ledger) + [tx], |Txs(st, ledger)|)
  {
    var txs := Txs(st, ledger);
    var txs' := txs + [tx];
    forall id | txs'[|txs|].reference == RevertReference(id) ensures exists j: nat :: ReversesAt(txs', |txs|, j, id) {
      var id', postings :| tx.reference == RevertReference(id') && Stored(txs, id', postings) &&
        ps == SwapPostings(postings);
      SameRevertReference(id, id');
      var j :| 0 <= j < |txs| && txs[j].id == id && txs[j].postings == postings;
      assert Entries(SwapPostings(postings)) == Swap(Entries(postings));
      assert ReversesAt(txs', |txs|, j, id);
    }
  }

  lemma InsertKeepsLists(st: State, ledger: string, reference: string, ps: seq<Posting>, moves: seq<Move>)
    requires st.nextID >= 0 && forall l :: ListOk(st, l)
    requires ps != [] && FirstError(ps) == None
    requires !Repeats(st, ledger, Request(reference, ps))
    requires NotRevert(reference) ||
      exists id, postings ::
        reference == RevertReference(id) && Stored(Txs(st, ledger), id, postings) && ps == SwapPostings(postings)
    ensures var st' := Ledger.Insert(st, ledger, reference, ps, moves);
      st'.nextID >= 0 && (forall l :: ListOk(st', l)) && (forall l :: Extends(Txs(st, l), Txs(st', l)))
  {
    var st' := Ledger.Insert(st, ledger, reference, ps, moves);
    var tx := NumberTransaction(st, ledger, reference, ps);
    NumberingKeepsErrors(ps, tx.id, tx.id);
    ReversalIsPlaced(st, ledger, tx, ps);
    forall l ensures ListOk(st', l) && Extends(Txs(st, l), Txs(st', l)) {
      assert Txs(st', l) == if l == ledger then Txs(st, l) + [tx] else Txs(st, l);
      if l == ledger {
        AppendKeepsList(st, st', l, tx);
      } else {
        assert ListOk(st, l);
        SameList(st, st', l);
      }
    }
  }

  lemma MarkKeepsReversals(txs: seq<Transaction>, txs': seq<Transaction>)
    requires AllReverseEarlier(txs) && MarkedHaveReversals(txs)
    requires |txs'| == |txs| && Extends(txs, txs')
    requires forall i :: 0 <= i < |txs| && txs'[i].reverted && !txs[i].reverted ==> HasReversal(txs, txs[i].id)
    ensures AllReverseEarlier(txs') && MarkedHaveReversals(txs')
  {
    forall i | 0 <= i < |txs'| ensures ReversesEarlier(txs', i) {
      ReversesStays(txs, txs', i);
    }
    forall i | 0 <= i < |txs'| && txs'[i].reverted ensures HasReversal(txs', txs'[i].id) {
      assert txs'[i].id == txs[i].id;
      ExtendsKeeps(txs, txs', txs[i].id, []);
    }
  }

  lemma MarkKeepsLists(st: State, st': State, ledger: string, i: nat)
    requires forall l :: ListOk(st, l)
    requires Marked(st, st', ledger, i) && HasReversal(Txs(st, ledger), Txs(st, ledger)[i].id)
    ensures forall l :: ListOk(st', l)
    ensures forall l :: Extends(Txs(st, l), Txs(st', l))
  {
    forall l ensures ListOk(st', l) && Extends(Txs(st, l), Txs(st', l)) {
      var txs, txs' := Txs(st, l), Txs(st', l);
      assert ListOk(st, l);
      assert txs' == if l == ledger then txs[i := txs[i].(reverted := true)] else txs;
      WellKeptAfterMark(st, st', ledger, l);
      MarkKeepsReversals(txs, txs');
    }
  }

  lemma ClientsStay(sys: System, st': State)
    requires Sound(sys) && forall l :: Extends(Txs(sys.books, l), Txs(st', l))
    ensures forall client :: client in sys.clients ==> ClientOk(st', sys.clients[client])
  {
    forall client | client in sys.clients ensures ClientOk(st', sys.clients[client]) {
      assert Extends(Txs(sys.books, sys.clients[client].ledger), Txs(st', sys.clients[client].ledger));
      ClientStays(sys.books, st', sys.clients[client]);
    }
  }

  lemma FindIsSound(sys: System, client: nat, ledger: string, id: int)
    requires Sound(sys)
    ensures Sound(AfterFind(sys, client, ledger, id))
  {
  }

  lemma ReferenceIsReversal(txs: seq<Transaction>, id: int)
    ensures FindReference(txs, RevertReference(id)).Some? <==> HasReversal(txs, id)
  {
    FindReferenceMeaning(txs, RevertReference(id));
  }

  lemma LookUpIsSound(sys: System, client: nat)
    requires Sound(sys) && client in sys.clients && sys.clients[client].Reading?
    ensures Sound(AfterLookUp(sys, client, sys.clients[client]))
  {
    var c := sys.clients[client];
    assert ClientOk(sys.books, c);
    ReferenceIsReversal(Txs(sys.books, c.ledger), c.id);
  }

  /** What a missing-reference client may insert: the swapped postings of a stored transaction, all acceptable. */
  lemma ReversalAcceptable(st: State, ledger: string, id: int, postings: seq<Posting>)
    requires ListOk(st, ledger) && Stored(Txs(st, ledger), id, postings)
    ensures SwapPostings(postings) != [] && FirstError(SwapPostings(postings)) == None
  {
    var txs := Txs(st, ledger);
    var i :| 0 <= i < |txs| && txs[i].id == id && txs[i].postings == postings;
    assert Valid(txs[i], ledger, st.nextID);
    LedgerRuns.SwapAcceptable(postings);
    assert |SwapPostings(postings)| == |postings|;
  }

  lemma ClientMoves(sys: System, st': State, client: nat, c: Client)
    requires st'.nextID >= 0 && (forall l :: ListOk(st', l)) && ClientOk(st', c)
    requires forall k :: k in sys.clients ==> ClientOk(st', sys.clients[k])
    ensures Sound(System(st', sys.clients[client := c]))
  {
  }

  lemma InsertIsSound(sys: System, client: nat, moves: seq<Move>)
    requires Sound(sys) && client in sys.clients && sys.clients[client].Missing?
    ensures Sound(AfterInsert(true, sys, client, sys.clients[client], moves))
  {
    var c := sys.clients[client];
    assert ClientOk(sys.books, c) && ListOk(sys.books, c.ledger);
    var reference, ps := RevertReference(c.id), SwapPostings(c.postings);
    if !Repeats(sys.books, c.ledger, Request(reference, ps)) {
      var st' := Ledger.Insert(sys.books, c.ledger, reference, ps, moves);
      ReversalAcceptable(sys.books, c.ledger, c.id, c.postings);
      InsertKeepsLists(sys.books, c.ledger, reference, ps, moves);
      ClientsStay(sys, st');
      var txs' := Txs(st', c.ledger);
      assert txs'[|txs'| - 1].reference == reference;
      ClientMoves(sys, st', client, Marking(c.ledger, c.id));
    }
  }

  lemma MarkIsSound(sys: System, client: nat)
    requires Sound(sys) && client in sys.clients && sys.clients[client].Marking?
    ensures Sound(AfterMark(sys, client, sys.clients[client]))
  {
    var c := sys.clients[client];
    assert ClientOk(sys.books, c);
    MarkCases(sys.books, c.ledger, c.id);
    var (st', r) := MarkReverted(sys.books, c.ledger, c.id);
    if r.Ok? {
      MarkKeepsLists(sys.books, st', c.ledger, FindId(Txs(sys.books, c.ledger), c.id).value);
      ClientsStay(sys, st');
    }
  }

  lemma OtherIsSound(sys: System, ledger: string, req: Request, moves: seq<Move>)
    requires Sound(sys) && ValidRequest(req) && NotRevert(req.reference)
    ensures Sound(AfterOther(true, sys, ledger, req, moves))
  {
    if !Repeats(sys.books, ledger, Request(req.reference, req.postings)) {
      InsertKeepsLists(sys.books, ledger, req.reference, req.postings, moves);
      ClientsStay(sys, Ledger.Insert(sys.books, ledger, req.reference, req.postings, moves));
    }
  }

  lemma StepIsSound(sys: System, a: Action)
    requires Sound(sys)
    ensures Sound(Step(true, sys, a))
  {
    match a {
      case Find(client, ledger, id) => FindIsSound(sys, client, ledger, id);
      case LookUp(client) =>
        if client in sys.clients && sys.clients[client].Reading? { LookUpIsSound(sys, client); }
      case Insert(client, moves) =>
        if client in sys.clients && sys.clients[client].Missing? { InsertIsSound(sys, client, moves); }
      case Mark(client) =>
        if client in sys.clients && sys.clients[client].Marking? { MarkIsSound(sys, client); }
      case Stop(client) =>
      case OtherPost(ledger, req, moves) =>
        if ValidRequest(req) && NotRevert(req.reference) { OtherIsSound(sys, ledger, req, moves); }
    }
  }

  lemma {:induction false} SoundFrom(sys: System, actions: seq<Action>)
    requires Sound(sys)
    ensures Sound(StepsFrom(true, sys, actions))
  {
    if actions != [] {
      SoundFrom(sys, actions[..|actions| - 1]);
      StepIsSound(StepsFrom(true, sys, actions[..|actions| - 1]), actions[|actions| - 1]);
    }
  }

  lemma AlwaysSound(actions: seq<Action>)
    ensures Sound(Steps(true, actions))
  {
    assert forall l :: Txs(EMPTY, l) == [];
    SoundFrom(System(EMPTY, map[]), actions);
  }

  /*** The guarantees ***/

  ghost predicate AtMostOne(txs: seq<Transaction>, reference: string) {
    forall i, j :: 0 <= i < j < |txs| && txs[i].reference == reference ==> txs[j].reference != reference
  }

  /** At most one reversal per transaction, whatever the interleaving; it carries the swapped postings of an earlier
      transaction, and a mark proves that it is stored. */
  lemma AtMostOneReversal(actions: seq<Action>, ledger: string, id: int)
    ensures var txs := Txs(Steps(true, actions).books, ledger);
      && AtMostOne(txs, RevertReference(id))
      && AllReverseEarlier(txs)
      && forall i :: 0 <= i < |txs| && txs[i].id == id && txs[i].reverted ==> HasReversal(txs, id)
  {
    AlwaysSound(actions);
    var sys := Steps(true, actions);
    assert ListOk(sys.books, ledger);
    assert RevertReference(id) != "";
  }

  /** The list gains the reversal, if it had none, and the mark. */
  ghost predicate Reverted(txs: seq<Transaction>, txs': seq<Transaction>, i: nat)
    requires i < |txs|
  {
    && |txs'| == |txs| + (if HasReversal(txs, txs[i].id) then 0 else 1)
    && (forall k :: 0 <= k < |txs| && k != i ==> txs'[k] == txs[k])
    && txs'[i] == txs[i].(reverted := true)
    && HasReversal(txs', txs[i].id)
  }

  lemma ReadsOnly(unique: bool, sys: System, client: nat, ledger: string, i: nat)
    requires client !in sys.clients && IncreasingIds(Txs(sys.books, ledger))
    requires i < |Txs(sys.books, ledger)| && !Txs(sys.books, ledger)[i].reverted
    ensures var tx := Txs(sys.books, ledger)[i];
      var s1 := Step(unique, sys, Find(client, ledger, tx.id));
      Step(unique, s1, LookUp(client)) == sys.(clients := sys.clients[client :=
        if HasReversal(Txs(sys.books, ledger), tx.id)
          then Marking(ledger, tx.id) else Missing(ledger, tx.id, tx.postings)])
  {
    var txs := Txs(sys.books, ledger);
    FindIdMeaning(txs, txs[i].id);
    ReferenceIsReversal(txs, txs[i].id);
  }

  /** The mark lands on the transaction wherever its list has grown since. */
  lemma MarkLands(sys: System, client: nat, ledger: string, i: nat)
    requires Sound(sys) && i < |Txs(sys.books, ledger)| && !Txs(sys.books, ledger)[i].reverted
    requires client in sys.clients && sys.clients[client] == Marking(ledger, Txs(sys.books, ledger)[i].id)
    ensures var sys' := Step(true, sys, Mark(client));
      && Txs(sys'.books, ledger) == Txs(sys.books, ledger)[i := Txs(sys.books, ledger)[i].(reverted := true)]
      && client !in sys'.clients
  {
    assert ListOk(sys.books, ledger);
    FindIdMeaning(Txs(sys.books, ledger), Txs(sys.books, ledger)[i].id);
  }

  lemma InsertLands(sys: System, client: nat, ledger: string, i: nat, moves: seq<Move>)
    requires Sound(sys) && i < |Txs(sys.books, ledger)| && !Txs(sys.books, ledger)[i].reverted
    requires client in sys.clients
    requires sys.clients[client] == Missing(ledger, Txs(sys.books, ledger)[i].id, Txs(sys.books, ledger)[i].postings)
    requires !HasReversal(Txs(sys.books, ledger), Txs(sys.books, ledger)[i].id)
    ensures var tx, sys' := Txs(sys.books, ledger)[i], Step(true, sys, Insert(client, moves));
      && Txs(sys'.books, ledger) == Txs(sys.books, ledger) +
           [NumberTransaction(sys.books, ledger, RevertReference(tx.id), SwapPostings(tx.postings))]
      && client in sys'.clients && sys'.clients[client] == Marking(ledger, tx.id)
  {
    ReferenceIsReversal(Txs(sys.books, ledger), Txs(sys.books, ledger)[i].id);
  }

  lemma FinishRetry(s2: System, s3: System, client: nat, ledger: string, i: nat, moves: seq<Move>)
    requires Sound(s2) && i < |Txs(s2.books, ledger)| && !Txs(s2.books, ledger)[i].reverted
    requires client in s2.clients && s3 == Step(true, s2, Insert(client, moves))
    requires var tx := Txs(s2.books, ledger)[i];
      s2.clients[client] ==
        if HasReversal(Txs(s2.books, ledger), tx.id)
          then Marking(ledger, tx.id) else Missing(ledger, tx.id, tx.postings)
    ensures Reverted(Txs(s2.books, ledger), Txs(Step(true, s3, Mark(client)).books, ledger), i)
    ensures client !in Step(true, s3, Mark(client)).clients
  {
    var txs := Txs(s2.books, ledger);
    StepIsSound(s2, Insert(client, moves));
    if !HasReversal(txs, txs[i].id) {
      InsertLands(s2, client, ledger, i, moves);
    }
    MarkLands(s3, client, ledger, i);
    var txs3, txs' := Txs(s3.books, ledger), Txs(Step(true, s3, Mark(client)).books, ledger);
    assert HasReversal(txs3, txs[i].id) by {
      if !HasReversal(txs, txs[i].id) {
        assert txs3[|txs|].reference == RevertReference(txs[i].id);
      }
    }
    ExtendsKeeps(txs3, txs', txs[i].id, []);
  }

  lemma RetryFrom(sys: System, client: nat, ledger: string, i: nat, moves: seq<Move>)
    requires Sound(sys) && client !in sys.clients && i < |Txs(sys.books, ledger)| && !Txs(sys.books, ledger)[i].reverted
    ensures var txs := Txs(sys.books, ledger);
      var s1 := Step(true, sys, Find(client, ledger, txs[i].id));
      var s2 := Step(true, s1, LookUp(client));
      var s3 := Step(true, s2, Insert(client, moves));
      var s4 := Step(true, s3, Mark(client));
      Reverted(txs, Txs(s4.books, ledger), i) && client !in s4.clients
  {
    var txs := Txs(sys.books, ledger);
    var s1 := Step(true, sys, Find(client, ledger, txs[i].id));
    var s2 := Step(true, s1, LookUp(client));
    var s3 := Step(true, s2, Insert(client, moves));
    assert ListOk(sys.books, ledger);
    ReadsOnly(true, sys, client, ledger, i);
    StepIsSound(sys, Find(client, ledger, txs[i].id));
    StepIsSound(s1, LookUp(client));
    FinishRetry(s2, s3, client, ledger, i, moves);
  }

  /** A retry completes from every reachable state in which the transaction is stored and unmarked, in particular
      after a crash between post and mark: it ends marked, with a reversal, and none is posted if one was already
      there. */
  lemma RetryCompletes(actions: seq<Action>, client: nat, ledger: string, i: nat, moves: seq<Move>)
    requires client !in Steps(true, actions).clients
    requires i < |Txs(Steps(true, actions).books, ledger)| && !Txs(Steps(true, actions).books, ledger)[i].reverted
    ensures var txs := Txs(Steps(true, actions).books, ledger);
      var s1 := Step(true, Steps(true, actions), Find(client, ledger, txs[i].id));
      var s2 := Step(true, s1, LookUp(client));
      var s3 := Step(true, s2, Insert(client, moves));
      var s4 := Step(true, s3, Mark(client));
      Reverted(txs, Txs(s4.books, ledger), i) && client !in s4.clients
  {
    var sys := Steps(true, actions);
    AlwaysSound(actions);
    RetryFrom(sys, client, ledger, i, moves);
  }

  /*** A retry with others at work between its calls ***/

  predicate ActsFor(a: Action, client: nat) {
    match a
    case Find(c, _, _) => c == client
    case LookUp(c) => c == client
    case Insert(c, _) => c == client
    case Mark(c) => c == client
    case Stop(c) => c == client
    case OtherPost(_, _, _) => false
  }

  predicate OthersOnly(actions: seq<Action>, client: nat) {
    forall i :: 0 <= i < |actions| ==> !ActsFor(actions[i], client)
  }

  /** Lists grow, and marks stay. */
  ghost predicate Goes(txs: seq<Transaction>, txs': seq<Transaction>) {
    Extends(txs, txs') && forall i :: 0 <= i < |txs| && txs[i].reverted ==> txs'[i].reverted
  }

  lemma InsertGoes(st: State, ledger: string, reference: string, ps: seq<Posting>, moves: seq<Move>, l: string)
    ensures Goes(Txs(st, l), Txs(Ledger.Insert(st, ledger, reference, ps, moves), l))
  {
  }

  lemma MarkGoes(st: State, ledger: string, id: int, l: string)
    ensures Goes(Txs(st, l), Txs(MarkReverted(st, ledger, id).0, l))
  {
    MarkCases(st, ledger, id);
    var (st', r) := MarkReverted(st, ledger, id);
    if r.Ok? {
      var i := FindId(Txs(st, ledger), id).value;
      assert Txs(st', l) == if l == ledger then Txs(st, l)[i := Txs(st, l)[i].(reverted := true)] else Txs(st, l);
    }
  }

  lemma StepGoes(sys: System, a: Action, l: string)
    ensures Goes(Txs(sys.books, l), Txs(Step(true, sys, a).books, l))
  {
    match a {
      case Find(client, ledger, id) =>
      case LookUp(client) =>
      case Insert(client, moves) =>
        if client in sys.clients && sys.clients[client].Missing? {
          var c := sys.clients[client];
          InsertGoes(sys.books, c.ledger, RevertReference(c.id), SwapPostings(c.postings), moves, l);
        }
      case Mark(client) =>
        if client in sys.clients && sys.clients[client].Marking? {
          MarkGoes(sys.books, sys.clients[client].ledger, sys.clients[client].id, l);
        }
      case Stop(client) =>
      case OtherPost(ledger, req, moves) => InsertGoes(sys.books, ledger, req.reference, req.postings, moves, l);
    }
  }

  lemma OtherStep(sys: System, a: Action, client: nat)
    requires !ActsFor(a, client)
    ensures var sys' := Step(true, sys, a);
      && (client in sys'.clients <==> client in sys.clients)
      && (client in sys.clients ==> sys'.clients[client] == sys.clients[client])
  {
  }

  /** A stretch of other clients' steps: this client's state stays, lists only grow, and soundness holds. */
  ghost predicate Passed(sys: System, sys': System, client: nat, l: string) {
    && Sound(sys')
    && (client in sys'.clients <==> client in sys.clients)
    && (client in sys.clients ==> sys'.clients[client] == sys.clients[client])
    && Goes(Txs(sys.books, l), Txs(sys'.books, l))
  }

  lemma {:induction false} OthersPass(sys: System, actions: seq<Action>, client: nat, l: string)
    requires Sound(sys) && OthersOnly(actions, client)
    ensures Passed(sys, StepsFrom(true, sys, actions), client, l)
  {
    if actions != [] {
      var front, last := actions[..|actions| - 1], actions[|actions| - 1];
      OthersPass(sys, front, client, l);
      var mid := StepsFrom(true, sys, front);
      StepIsSound(mid, last);
      OtherStep(mid, last, client);
      StepGoes(mid, last, l);
    }
  }

  /** The transaction a retry is about, wherever its list has grown to. */
  ghost predicate IsAt(sys: System, ledger: string, i: nat, id: int) {
    i < |Txs(sys.books, ledger)| && Txs(sys.books, ledger)[i].id == id
  }

  lemma FindReads(sys: System, client: nat, ledger: string, i: nat, id: int)
    requires Sound(sys) && client !in sys.clients && IsAt(sys, ledger, i, id) && !Txs(sys.books, ledger)[i].reverted
    ensures var s := Step(true, sys, Find(client, ledger, id));
      && s.books == sys.books && Sound(s) && client in s.clients
      && s.clients[client] == Reading(ledger, id, Txs(sys.books, ledger)[i].postings)
  {
    assert ListOk(sys.books, ledger);
    FindIdMeaning(Txs(sys.books, ledger), id);
    StepIsSound(sys, Find(client, ledger, id));
  }

  /** A transaction already marked, or not stored, ends a call at its first step. */
  lemma FindRefuses(unique: bool, sys: System, client: nat, ledger: string, id: int)
    requires forall i :: 0 <= i < |Txs(sys.books, ledger)| && Txs(sys.books, ledger)[i].id == id ==>
      Txs(sys.books, ledger)[i].reverted
    ensures Step(unique, sys, Find(client, ledger, id)) == sys
  {
    FindIdMeaning(Txs(sys.books, ledger), id);
  }

  lemma LookUpDecides(sys: System, client: nat, ledger: string, id: int, ps: seq<Posting>)
    requires Sound(sys) && client in sys.clients && sys.clients[client] == Reading(ledger, id, ps)
    ensures var s := Step(true, sys, LookUp(client));
      && s.books == sys.books && Sound(s) && client in s.clients
      && s.clients[client] == if HasReversal(Txs(sys.books, ledger), id)
        then Marking(ledger, id) else Missing(ledger, id, ps)
  {
    StepIsSound(sys, LookUp(client));
    ReferenceIsReversal(Txs(sys.books, ledger), id);
  }

  /** The insert either finds the reversal already stored, or stores it; it leaves the client marking unless it was
      looked up as missing and has appeared since. */
  lemma InsertSettles(sys: System, client: nat, ledger: string, id: int, ps: seq<Posting>, moves: seq<Move>)
    requires Sound(sys) && client in sys.clients
    requires sys.clients[client] == Missing(ledger, id, ps) ||
      (sys.clients[client] == Marking(ledger, id) && HasReversal(Txs(sys.books, ledger), id))
    ensures var s := Step(true, sys, Insert(client, moves));
      && Sound(s) && HasReversal(Txs(s.books, ledger), id) && Goes(Txs(sys.books, ledger), Txs(s.books, ledger))
      && if sys.clients[client].Missing? && HasReversal(Txs(sys.books, ledger), id) then client !in s.clients
         else client in s.clients && s.clients[client] == Marking(ledger, id)
  {
    StepIsSound(sys, Insert(client, moves));
    StepGoes(sys, Insert(client, moves), ledger);
    ReferenceIsReversal(Txs(sys.books, ledger), id);
    var s := Step(true, sys, Insert(client, moves));
    if sys.clients[client].Missing? && !HasReversal(Txs(sys.books, ledger), id) {
      var txs := Txs(s.books, ledger);
      assert txs[|txs| - 1].reference == RevertReference(id);
    }
  }

  /** A mark by a client that holds the reversal leaves the transaction marked, by this client or by another before
      it. */
  lemma MarkSettles(sys: System, client: nat, ledger: string, i: nat, id: int)
    requires Sound(sys) && IsAt(sys, ledger, i, id) && HasReversal(Txs(sys.books, ledger), id)
    requires client in sys.clients ==> sys.clients[client] == Marking(ledger, id)
    ensures var s := Step(true, sys, Mark(client));
      && Sound(s) && client !in s.clients && IsAt(s, ledger, i, id) && HasReversal(Txs(s.books, ledger), id)
      && (client in sys.clients || Txs(sys.books, ledger)[i].reverted ==> Txs(s.books, ledger)[i].reverted)
  {
    StepIsSound(sys, Mark(client));
    StepGoes(sys, Mark(client), ledger);
    assert ListOk(sys.books, ledger);
    FindIdMeaning(Txs(sys.books, ledger), id);
    ExtendsKeeps(Txs(sys.books, ledger), Txs(Step(true, sys, Mark(client)).books, ledger), id, []);
  }

  lemma RetryFromInsert(s2: System, client: nat, ledger: string, i: nat, id: int, ps: seq<Posting>, moves: seq<Move>,
                        o3: seq<Action>)
    requires Sound(s2) && IsAt(s2, ledger, i, id) && OthersOnly(o3, client) && client in s2.clients
    requires s2.clients[client] == Missing(ledger, id, ps) ||
      (s2.clients[client] == Marking(ledger, id) && HasReversal(Txs(s2.books, ledger), id))
    ensures var s3 := StepsFrom(true, Step(true, s2, Insert(client, moves)), o3);
      var s4 := Step(true, s3, Mark(client));
      && client !in s4.clients && IsAt(s4, ledger, i, id)
      && HasReversal(Txs(s4.books, ledger), id) && AtMostOne(Txs(s4.books, ledger), RevertReference(id))
      && (s2.clients[client].Marking? || !HasReversal(Txs(s2.books, ledger), id) ==> Txs(s4.books, ledger)[i].reverted)
  {
    var v := Step(true, s2, Insert(client, moves));
    InsertSettles(s2, client, ledger, id, ps, moves);
    OthersPass(v, o3, client, ledger);
    var s3 := StepsFrom(true, v, o3);
    ExtendsKeeps(Txs(v.books, ledger), Txs(s3.books, ledger), id, []);
    MarkSettles(s3, client, ledger, i, id);
    var s4 := Step(true, s3, Mark(client));
    assert ListOk(s4.books, ledger);
    assert RevertReference(id) != "";
  }

  lemma RetryFromLookUp(s1: System, client: nat, ledger: string, i: nat, id: int, ps: seq<Posting>, moves: seq<Move>,
                        o2: seq<Action>, o3: seq<Action>)
    requires Sound(s1) && IsAt(s1, ledger, i, id) && OthersOnly(o2, client) && OthersOnly(o3, client)
    requires client in s1.clients && s1.clients[client] == Reading(ledger, id, ps)
    ensures var s2 := StepsFrom(true, Step(true, s1, LookUp(client)), o2);
      var s3 := StepsFrom(true, Step(true, s2, Insert(client, moves)), o3);
      var s4 := Step(true, s3, Mark(client));
      && client !in s4.clients && IsAt(s4, ledger, i, id)
      && HasReversal(Txs(s4.books, ledger), id) && AtMostOne(Txs(s4.books, ledger), RevertReference(id))
      && (HasReversal(Txs(s1.books, ledger), id) || !HasReversal(Txs(s2.books, ledger), id) ==>
            Txs(s4.books, ledger)[i].reverted)
  {
    var u := Step(true, s1, LookUp(client));
    LookUpDecides(s1, client, ledger, id, ps);
    OthersPass(u, o2, client, ledger);
    var s2 := StepsFrom(true, u, o2);
    ExtendsKeeps(Txs(s1.books, ledger), Txs(s2.books, ledger), id, []);
    RetryFromInsert(s2, client, ledger, i, id, ps, moves, o3);
  }

  /** A retry whose calls are separated by any steps of other clients. It always ends with the reversal stored, once;
      and with the transaction marked, unless another client stored the reversal between this one's look-up and its
      insert. A retry that starts after the reversal was stored therefore always ends marked. */
  lemma RetryAmongOthers(sys: System, client: nat, ledger: string, i: nat, id: int, moves: seq<Move>,
                         o1: seq<Action>, o2: seq<Action>, o3: seq<Action>)
    requires Sound(sys) && client !in sys.clients && IsAt(sys, ledger, i, id) && !Txs(sys.books, ledger)[i].reverted
    requires OthersOnly(o1, client) && OthersOnly(o2, client) && OthersOnly(o3, client)
    ensures var s1 := StepsFrom(true, Step(true, sys, Find(client, ledger, id)), o1);
      var s2 := StepsFrom(true, Step(true, s1, LookUp(client)), o2);
      var s3 := StepsFrom(true, Step(true, s2, Insert(client, moves)), o3);
      var s4 := Step(true, s3, Mark(client));
      && client !in s4.clients && IsAt(s4, ledger, i, id)
      && HasReversal(Txs(s4.books, ledger), id) && AtMostOne(Txs(s4.books, ledger), RevertReference(id))
      && (HasReversal(Txs(s1.books, ledger), id) || !HasReversal(Txs(s2.books, ledger), id) ==>
            Txs(s4.books, ledger)[i].reverted)
      && (HasReversal(Txs(sys.books, ledger), id) ==> Txs(s4.books, ledger)[i].reverted)
  {
    var f := Step(true, sys, Find(client, ledger, id));
    FindReads(sys, client, ledger, i, id);
    OthersPass(f, o1, client, ledger);
    var s1 := StepsFrom(true, f, o1);
    ExtendsKeeps(Txs(sys.books, ledger), Txs(s1.books, ledger), id, []);
    RetryFromLookUp(s1, client, ledger, i, id, Txs(sys.books, ledger)[i].postings, moves, o2, o3);
  }

  /*** Without the unique index ***/

  lemma ReversalNets(txs: seq<Transaction>, reversal: Transaction, original: Transaction, account: string,
                     asset: string)
    requires exists last, id :: reversal.postings == NumberPostings(SwapPostings(original.postings), last, id)
    ensures Replayed(txs + [reversal], account, asset) ==
            Replayed(txs, account, asset) - NetOf(Entries(original.postings), account, asset)
  {
    ReplayedAppend(txs, reversal, account, asset);
    assert Entries(reversal.postings) == Swap(Entries(original.postings));
    SwapNegates(Entries(original.postings), account, asset);
  }

  lemma BothInsert(sys: System, a: nat, b: nat, ledger: string, i: nat, moves: seq<Move>, moves': seq<Move>,
                   account: string, asset: string)
    requires a != b && a in sys.clients && b in sys.clients
    requires i < |Txs(sys.books, ledger)|
    requires var tx := Txs(sys.books, ledger)[i];
      sys.clients[a] == sys.clients[b] == Missing(ledger, tx.id, tx.postings)
    ensures var s1 := Step(false, sys, Insert(a, moves));
      var s2 := Step(false, s1, Insert(b, moves'));
      && !AtMostOne(Txs(s2.books, ledger), RevertReference(Txs(sys.books, ledger)[i].id))
      && Replayed(Txs(s2.books, ledger), account, asset) ==
         Replayed(Txs(sys.books, ledger), account, asset)
           - 2 * NetOf(Entries(Txs(sys.books, ledger)[i].postings), account, asset)
  {
    var txs := Txs(sys.books, ledger);
    var s1 := Step(false, sys, Insert(a, moves));
    var s2 := Step(false, s1, Insert(b, moves'));
    assert s1.clients[b] == sys.clients[b];
    var reference, ps := RevertReference(txs[i].id), SwapPostings(txs[i].postings);
    var first := NumberTransaction(sys.books, ledger, reference, ps);
    var second := NumberTransaction(s1.books, ledger, reference, ps);
    assert Txs(s1.books, ledger) == txs + [first] && Txs(s2.books, ledger) == txs + [first] + [second];
    ReversalNets(txs, first, txs[i], account, asset);
    ReversalNets(txs + [first], second, txs[i], account, asset);
    assert (txs + [first] + [second])[|txs|] == first && (txs + [first] + [second])[|txs| + 1] == second;
  }

  /** Over a store that does not refuse duplicate references, two clients that both look up before either inserts both
      reverse the transaction: every balance moves by minus twice its effect. */
  lemma UncheckedStoreRevertsTwice(sys: System, a: nat, b: nat, ledger: string, i: nat, moves: seq<Move>,
                                   moves': seq<Move>,
                                   account: string, asset: string)
    requires a != b && a !in sys.clients && b !in sys.clients && IncreasingIds(Txs(sys.books, ledger))
    requires i < |Txs(sys.books, ledger)| && !Txs(sys.books, ledger)[i].reverted
    requires !HasReversal(Txs(sys.books, ledger), Txs(sys.books, ledger)[i].id)
    ensures var tx := Txs(sys.books, ledger)[i];
      var s1 := Step(false, Step(false, sys, Find(a, ledger, tx.id)), LookUp(a));
      var s2 := Step(false, Step(false, s1, Find(b, ledger, tx.id)), LookUp(b));
      var s3 := Step(false, Step(false, s2, Insert(a, moves)), Insert(b, moves'));
      && !AtMostOne(Txs(s3.books, ledger), RevertReference(tx.id))
      && Replayed(Txs(s3.books, ledger), account, asset) ==
         Replayed(Txs(sys.books, ledger), account, asset) - 2 * NetOf(Entries(tx.postings), account, asset)
  {
    var tx := Txs(sys.books, ledger)[i];
    var s1 := Step(false, Step(false, sys, Find(a, ledger, tx.id)), LookUp(a));
    ReadsOnly(false, sys, a, ledger, i);
    ReadsOnly(false, s1, b, ledger, i);
    var s2 := Step(false, Step(false, s1, Find(b, ledger, tx.id)), LookUp(b));
    BothInsert(s2, a, b, ledger, i, moves, moves', account, asset);
  }

  /** No two calls under way are about the same transaction. */
  predicate OnePerTransaction(sys: System) {
    forall c, d :: c in sys.clients && d in sys.clients && c != d ==>
      sys.clients[c].ledger != sys.clients[d].ledger || sys.clients[c].id != sys.clients[d].id
  }

  ghost predicate NeverOverlapping(actions: seq<Action>) {
    forall n: nat :: n <= |actions| ==> OnePerTransaction(Steps(false, actions[..n]))
  }

  ghost predicate SingleAt(sys: System, ledger: string, id: int) {
    AtMostOne(Txs(sys.books, ledger), RevertReference(id))
  }

  /** A reference found missing is still missing. */
  ghost predicate StillMissing(st: State, c: Client) {
    c.Missing? ==> !HasReversal(Txs(st, c.ledger), c.id)
  }

  ghost predicate Single(sys: System) {
    && (forall ledger, id :: SingleAt(sys, ledger, id))
    && (forall client :: client in sys.clients ==> StillMissing(sys.books, sys.clients[client]))
  }

  lemma AppendSingle(txs: seq<Transaction>, tx: Transaction, id: int)
    requires AtMostOne(txs, RevertReference(id)) && (tx.reference == RevertReference(id) ==> !HasReversal(txs, id))
    ensures AtMostOne(txs + [tx], RevertReference(id))
  {
  }

  lemma AppendStillMissing(txs: seq<Transaction>, tx: Transaction, id: int)
    requires !HasReversal(txs, id) && tx.reference != RevertReference(id)
    ensures !HasReversal(txs + [tx], id)
  {
  }

  lemma InsertSingle(sys: System, client: nat, moves: seq<Move>)
    requires Single(sys) && OnePerTransaction(sys) && client in sys.clients && sys.clients[client].Missing?
    ensures Single(AfterInsert(false, sys, client, sys.clients[client], moves))
  {
    var c := sys.clients[client];
    var sys' := AfterInsert(false, sys, client, c, moves);
    var tx := NumberTransaction(sys.books, c.ledger, RevertReference(c.id), SwapPostings(c.postings));
    forall l ensures Txs(sys'.books, l) == if l == c.ledger then Txs(sys.books, l) + [tx] else Txs(sys.books, l) {}
    assert StillMissing(sys.books, c);
    forall l, id ensures SingleAt(sys', l, id) {
      assert SingleAt(sys, l, id);
      if l == c.ledger {
        if tx.reference == RevertReference(id) { SameRevertReference(c.id, id); }
        AppendSingle(Txs(sys.books, l), tx, id);
      }
    }
    forall d | d in sys'.clients ensures StillMissing(sys'.books, sys'.clients[d]) {
      if d != client && sys.clients[d].Missing? {
        var other := sys.clients[d];
        assert StillMissing(sys.books, other);
        if other.ledger == c.ledger {
          if tx.reference == RevertReference(other.id) { SameRevertReference(c.id, other.id); }
          AppendStillMissing(Txs(sys.books, c.ledger), tx, other.id);
        }
      }
    }
  }

  lemma OtherSingle(sys: System, ledger: string, req: Request, moves: seq<Move>)
    requires Single(sys) && NotRevert(req.reference)
    ensures Single(AfterOther(false, sys, ledger, req, moves))
  {
    var sys' := AfterOther(false, sys, ledger, req, moves);
    var tx := NumberTransaction(sys.books, ledger, req.reference, req.postings);
    forall l ensures Txs(sys'.books, l) == if l == ledger then Txs(sys.books, l) + [tx] else Txs(sys.books, l) {}
    forall l, id ensures SingleAt(sys', l, id) {
      assert SingleAt(sys, l, id);
      if l == ledger { AppendSingle(Txs(sys.books, l), tx, id); }
    }
    forall d | d in sys'.clients ensures StillMissing(sys'.books, sys'.clients[d]) {
      var c := sys.clients[d];
      assert StillMissing(sys.books, c);
      if c.Missing? && c.ledger == ledger { AppendStillMissing(Txs(sys.books, ledger), tx, c.id); }
    }
  }

  lemma SameReferences(txs: seq<Transaction>, txs': seq<Transaction>, id: int)
    requires |txs| == |txs'| && Extends(txs, txs')
    ensures AtMostOne(txs, RevertReference(id)) ==> AtMostOne(txs', RevertReference(id))
    ensures HasReversal(txs', id) ==> HasReversal(txs, id)
  {
    assert forall i :: 0 <= i < |txs| ==> txs'[i].reference == txs[i].reference;
  }

  lemma MarkSingle(sys: System, client: nat)
    requires Single(sys) && client in sys.clients
    ensures Single(AfterMark(sys, client, sys.clients[client]))
  {
    var c := sys.clients[client];
    var sys' := AfterMark(sys, client, c);
    forall l, id ensures SingleAt(sys', l, id) {
      assert SingleAt(sys, l, id);
      MarkGoes(sys.books, c.ledger, c.id, l);
      SameReferences(Txs(sys.books, l), Txs(sys'.books, l), id);
    }
    forall d | d in sys'.clients ensures StillMissing(sys'.books, sys'.clients[d]) {
      var other := sys.clients[d];
      assert StillMissing(sys.books, other);
      MarkGoes(sys.books, c.ledger, c.id, other.ledger);
      SameReferences(Txs(sys.books, other.ledger), Txs(sys'.books, other.ledger), other.id);
    }
  }

  lemma LookUpSingle(sys: System, client: nat)
    requires Single(sys) && client in sys.clients && sys.clients[client].Reading?
    ensures Single(AfterLookUp(sys, client, sys.clients[client]))
  {
    var c := sys.clients[client];
    var sys' := AfterLookUp(sys, client, c);
    ReferenceIsReversal(Txs(sys.books, c.ledger), c.id);
    forall l, id ensures SingleAt(sys', l, id) { assert SingleAt(sys, l, id); }
    forall d | d in sys'.clients ensures StillMissing(sys'.books, sys'.clients[d]) {
      if d != client { assert StillMissing(sys.books, sys.clients[d]); }
    }
  }

  lemma StepSingle(sys: System, a: Action)
    requires Single(sys) && OnePerTransaction(sys)
    ensures Single(Step(false, sys, a))
  {
    match a {
      case Find(client, ledger, id) =>
        forall l, i ensures SingleAt(Step(false, sys, a), l, i) { assert SingleAt(sys, l, i); }
      case LookUp(client) =>
        if client in sys.clients && sys.clients[client].Reading? { LookUpSingle(sys, client); }
      case Insert(client, moves) =>
        if client in sys.clients && sys.clients[client].Missing? { InsertSingle(sys, client, moves); }
      case Mark(client) =>
        if client in sys.clients && sys.clients[client].Marking? { MarkSingle(sys, client); }
      case Stop(client) =>
        forall l, i ensures SingleAt(Step(false, sys, a), l, i) { assert SingleAt(sys, l, i); }
      case OtherPost(ledger, req, moves) =>
        if ValidRequest(req) && NotRevert(req.reference) { OtherSingle(sys, ledger, req, moves); }
    }
  }

  /** Even without the index, if no two calls on the same transaction ever overlap, at most one reversal exists per
      transaction. */
  lemma {:induction false} SingleWithoutOverlap(actions: seq<Action>)
    requires NeverOverlapping(actions)
    ensures Single(Steps(false, actions))
  {
    if actions == [] {
      assert forall l :: Txs(EMPTY, l) == [];
    } else {
      var front := actions[..|actions| - 1];
      forall n: nat | n <= |front| ensures OnePerTransaction(Steps(false, front[..n])) {
        assert front[..n] == actions[..n];
      }
      SingleWithoutOverlap(front);
      assert OnePerTransaction(Steps(false, front));
      StepSingle(Steps(false, front), actions[|actions| - 1]);
    }
  }
}
