/** How hold accounts, references and ids are told apart. */
module WalletNames {
  import opened Decimal
  import opened Text
  import opened Ledger
  import opened LedgerEffects
  import opened Wallets

  lemma IdsAreColonFree(n: int)
    ensures ColonFree(WalletId(n)) && ColonFree(HoldId(n))
  {
    PrintHasNoColon(n);
  }

  lemma IdsInjective(n: int, m: int)
    ensures WalletId(n) == WalletId(m) ==> n == m
    ensures HoldId(n) == HoldId(m) ==> n == m
  {
    assert WalletId(n)[4..] == Print(n) && WalletId(m)[4..] == Print(m);
    assert HoldId(n)[5..] == Print(n) && HoldId(m)[5..] == Print(m);
    if Print(n) == Print(m) {
      PrintInjective(n, m);
    }
  }

  lemma HoldAddressInjective(a: string, h: string, b: string, k: string)
    requires ColonFree(a) && ColonFree(b)
    requires HoldAddress(a, h) == HoldAddress(b, k)
    ensures a == b && h == k
  {
    var x, y := a + ":hold:" + h, b + ":hold:" + k;
    assert HoldAddress(a, h)[8..] == x && HoldAddress(b, k)[8..] == y;
    assert x == a + ":" + ("hold:" + h) && y == b + ":" + ("hold:" + k);
    CutFirst(a, "hold:" + h, b, "hold:" + k);
    assert ("hold:" + h)[5..] == h && ("hold:" + k)[5..] == k;
  }

  lemma MainIsNotHold(a: string, b: string, k: string)
    requires ColonFree(a) && ColonFree(b)
    ensures MainAddress(a) != HoldAddress(b, k)
  {
    if MainAddress(a) == HoldAddress(b, k) {
      assert MainAddress(a)[8..] == a + ":" + "main";
      assert HoldAddress(b, k)[8..] == b + ":" + ("hold:" + k);
      CutFirst(a, "main", b, "hold:" + k);
    }
  }

  lemma MainAddressInjective(a: string, b: string)
    requires MainAddress(a) == MainAddress(b)
    ensures a == b
  {
    assert MainAddress(a)[8..8 + |a|] == a && MainAddress(b)[8..8 + |b|] == b;
  }

  /** References of different kinds, holds or amounts never coincide. */
  lemma ConfirmReferenceInjective(h: string, a: int, k: string, b: int)
    requires ColonFree(h) && ColonFree(k)
    requires ConfirmReference(h, a) == ConfirmReference(k, b)
    ensures h == k && a == b
  {
    assert ConfirmReference(h, a)[8..] == h + ":" + Print(a);
    assert ConfirmReference(k, b)[8..] == k + ":" + Print(b);
    CutFirst(h, Print(a), k, Print(b));
    PrintInjective(a, b);
  }

  lemma HoldReferenceInjective(h: string, k: string)
    ensures HoldReference(h) == HoldReference(k) ==> h == k
    ensures VoidReference(h) == VoidReference(k) ==> h == k
  {
    assert HoldReference(h)[5..] == h && HoldReference(k)[5..] == k;
    assert VoidReference(h)[5..] == h && VoidReference(k)[5..] == k;
  }

  lemma KindsDiffer(h: string, k: string, a: int)
    ensures HoldReference(h) != VoidReference(k)
    ensures HoldReference(h) != ConfirmReference(k, a)
    ensures VoidReference(h) != ConfirmReference(k, a)
    ensures HoldReference(h) != "" && VoidReference(h) != "" && ConfirmReference(k, a) != ""
  {
    assert HoldReference(h)[0] == 'h' && VoidReference(k)[0] == 'v' && VoidReference(h)[0] == 'v';
    assert ConfirmReference(k, a)[0] == 'c';
  }

  /** References only the wallet service may use. */
  predicate IsWalletReference(reference: string) {
    "hold:" <= reference || "confirm:" <= reference || "void:" <= reference
  }

  lemma WalletReferences(h: string, a: int, id: int)
    ensures IsWalletReference(HoldReference(h)) && IsWalletReference(ConfirmReference(h, a))
    ensures IsWalletReference(VoidReference(h))
    ensures !IsWalletReference(RevertReference(id)) && !IsWalletReference("")
  {
    assert RevertReference(id)[0] == 'r';
  }

  /** None of them names a reversal. */
  lemma NotReversals(h: string, a: int)
    ensures !IsRevertReference(HoldReference(h)) && !IsRevertReference(ConfirmReference(h, a))
    ensures !IsRevertReference(VoidReference(h)) && !IsRevertReference("")
  {
    assert "revert:"[0] == 'r' && HoldReference(h)[0] == 'h' && ConfirmReference(h, a)[0] == 'c';
    assert VoidReference(h)[0] == 'v';
  }

  ghost predicate IsHoldAddress(address: string) {
    exists walletId, holdId :: ColonFree(walletId) && ColonFree(holdId) && address == HoldAddress(walletId, holdId)
  }

  lemma WorldIsNotHold()
    ensures !IsHoldAddress("world") && !IsHoldAddress("")
  {
    forall a: string, h: string ensures HoldAddress(a, h) != "world" && HoldAddress(a, h) != "" {
      assert |HoldAddress(a, h)| >= 14;
    }
  }

  lemma MainIsNoHoldAddress(walletId: string)
    requires ColonFree(walletId)
    ensures !IsHoldAddress(MainAddress(walletId))
  {
    forall a: string, h: string | ColonFree(a) && ColonFree(h) ensures HoldAddress(a, h) != MainAddress(walletId) {
      MainIsNotHold(walletId, a, h);
    }
  }

  /** The service's own account names always pass validation. */
  lemma NamesAreValid(walletId: string, holdId: string)
    requires ColonFree(walletId) && walletId != "" && ColonFree(holdId) && holdId != ""
    ensures ValidAddress(MainAddress(walletId)) && ValidAddress(HoldAddress(walletId, holdId))
  {
    hide ColonFree, ValidAddress, Print;
    ColonFreeIsValid("wallets");
    ColonFreeIsValid(walletId);
    ColonFreeIsValid("main");
    ColonFreeIsValid("hold");
    ColonFreeIsValid(holdId);
    ValidAddressJoin("wallets", walletId);
    ValidAddressJoin("wallets" + ":" + walletId, "main");
    assert MainAddress(walletId) == "wallets" + ":" + walletId + ":" + "main";
    ValidAddressJoin("wallets" + ":" + walletId, "hold");
    ValidAddressJoin("wallets" + ":" + walletId + ":" + "hold", holdId);
    assert HoldAddress(walletId, holdId) == "wallets" + ":" + walletId + ":" + "hold" + ":" + holdId;
  }
}

/** Holds and the ledger agree: the state of every hold account after every run of calls. */
module HoldLaws {
  import opened Outcomes
  import opened Decimal
  import opened Text
  import opened LedgerTypes
  import opened Volumes
  import opened Effects
  import opened Ledger
  import opened LedgerSteps
  import opened LedgerLaws
  import opened LedgerEffects
  import LedgerRuns
  import opened Wallets
  import opened WalletNames

  function Total(amounts: seq<int>): int {
    if amounts == [] then 0 else Total(amounts[..|amounts| - 1]) + amounts[|amounts| - 1]
  }

  /** The sum of the amounts that repeat an earlier one. */
  function Repeated(amounts: seq<int>): int {
    if amounts == [] then 0
    else
      var front, last := amounts[..|amounts| - 1], amounts[|amounts| - 1];
      Repeated(front) + if last in front then last else 0
  }

  predicate Distinct(amounts: seq<int>) {
    forall i, j :: 0 <= i < j < |amounts| ==> amounts[i] != amounts[j]
  }

  predicate Positive(amounts: seq<int>) {
    forall i :: 0 <= i < |amounts| ==> amounts[i] > 0
  }

  lemma {:induction false} RepeatedMeaning(amounts: seq<int>)
    requires Positive(amounts)
    ensures Repeated(amounts) >= 0
    ensures Repeated(amounts) == 0 <==> Distinct(amounts)
  {
    if amounts != [] {
      var front, last := amounts[..|amounts| - 1], amounts[|amounts| - 1];
      RepeatedMeaning(front);
      if last in front {
        var i :| 0 <= i < |front| && front[i] == last;
        assert amounts[i] == amounts[|amounts| - 1];
      }
    }
  }

  /*** What holds of every reachable world ***/

  ghost predicate IssuedWallet(id: string, nextID: int) {
    exists n :: 0 < n <= nextID && id == WalletId(n)
  }

  ghost predicate IssuedHold(id: string, nextID: int) {
    exists n :: 0 < n <= nextID && id == HoldId(n)
  }

  /** Bounds, status and bookkeeping of one hold, as integers. */
  predicate Counts(amount: int, remaining: int, status: Status, confirms: seq<int>) {
    && 0 <= remaining <= amount && 0 < amount
    && Positive(confirms)
    && (status == Pending <==> remaining == amount)
    && (status == Partial <==> 0 < remaining < amount)
    && (status == Confirmed || status == Voided <==> remaining == 0)
    && (if status == Voided then Total(confirms) < amount else remaining + Total(confirms) == amount)
  }

  predicate Lifecycle(hold: Hold, confirms: seq<int>) {
    && Parse(hold.amount).Some? && Parse(hold.remaining).Some? && hold.asset != ""
    && Counts(Value(hold.amount), Value(hold.remaining), hold.status, confirms)
  }

  ghost predicate HoldSound(w: World, h: string) {
    && h in w.holds && h in w.confirms
    && IssuedHold(h, w.nextID)
    && w.holds[h].walletId in w.wallets
    && !IsHoldAddress(OrWorld(w.holds[h].destination))
    && Lifecycle(w.holds[h], w.confirms[h])
  }

  /** The hold lives in this ledger. */
  predicate LivesIn(w: World, h: string, ledger: string) {
    && h in w.holds && h in w.confirms && w.holds[h].walletId in w.wallets
    && w.wallets[w.holds[h].walletId].ledger == ledger
  }

  /** Which of the service's references a ledger holds: one confirm reference per distinct confirmed amount. */
  ghost predicate RefsAt(w: World, ledger: string, h: string) {
    if LivesIn(w, h, ledger) then
      && (forall a :: Has(w.books, ledger, ConfirmReference(h, a)) <==> a in w.confirms[h])
      && (Has(w.books, ledger, VoidReference(h)) <==> w.holds[h].status == Voided)
    else
      && !Has(w.books, ledger, HoldReference(h))
      && !Has(w.books, ledger, VoidReference(h))
      && forall a :: !Has(w.books, ledger, ConfirmReference(h, a))
  }

  /** What a hold account contains as long as nothing is taken back from it. */
  function Expected(w: World, ledger: string, walletId: string, h: string, asset: string): int {
    if LivesIn(w, h, ledger) && w.holds[h].walletId == walletId && w.holds[h].asset == asset
    then Value(w.holds[h].remaining) + Repeated(w.confirms[h])
    else 0
  }

  ghost predicate NetsAt(w: World, ledger: string, walletId: string, h: string, asset: string) {
    && ClientBalance(w.books, ledger, HoldAddress(walletId, h), asset) == Expected(w, ledger, walletId, h, asset)
    && Clean(w.books, ledger, HoldAddress(walletId, h), asset)
  }

  ghost predicate Records(w: World) {
    && w.nextID >= 0
    && (forall id :: id in w.wallets ==> IssuedWallet(id, w.nextID))
    && (forall h :: h in w.holds ==> HoldSound(w, h))
  }

  ghost predicate Sound(w: World) {
    && Books(w.books)
    && Records(w)
    && (forall ledger, h :: ColonFree(h) ==> RefsAt(w, ledger, h))
    && (forall ledger, walletId, h, asset :: ColonFree(walletId) && ColonFree(h) ==>
      NetsAt(w, ledger, walletId, h, asset))
  }

  /*** Which calls the laws are about ***/

  ghost predicate AvoidsHolds(es: seq<Entry>) {
    forall i :: 0 <= i < |es| ==> !IsHoldAddress(es[i].source) && !IsHoldAddress(es[i].destination)
  }

  /** Other users of the ledger post nothing to hold accounts and nothing under the wallet service's references; they
      may revert whatever they like. */
  ghost predicate LedgerSafe(st: State, op: Op) {
    match op
    case AccountOp(_, _, _) => true
    case PostOp(_, req) => !IsWalletReference(req.reference) && AvoidsHolds(Entries(req.postings))
    case RevertOp(_, _) => true
  }

  ghost predicate Allowed(w: World, call: Call) {
    match call
    case CreateWalletCall(_, _) => true
    case CreditCall(_, _, _, other) => !IsHoldAddress(other)
    case DebitCall(_, _, _, other) => !IsHoldAddress(other)
    case CreateHoldCall(_, _, _, other) => !IsHoldAddress(other)
    case ConfirmCall(_, _) => true
    case VoidCall(_) => true
    case LedgerCall(op) => LedgerSafe(w.books, op)
  }

  ghost predicate AllAllowed(calls: seq<Call>) {
    forall i :: 0 <= i < |calls| ==> Allowed(After(calls[..i]), calls[i])
  }

  /*** Steps that do not concern holds ***/

  ghost predicate QuietAt(st: State, st': State, ledger: string, account: string, asset: string) {
    && ClientBalance(st', ledger, account, asset) == ClientBalance(st, ledger, account, asset)
    && (Clean(st, ledger, account, asset) ==> Clean(st', ledger, account, asset))
  }

  ghost predicate SameReference(st: State, st': State, ledger: string, r: string) {
    Has(st', ledger, r) == Has(st, ledger, r)
  }

  ghost predicate QuietForHolds(st: State, st': State) {
    && (forall ledger, account, asset :: IsHoldAddress(account) ==> QuietAt(st, st', ledger, account, asset))
    && (forall ledger, r :: IsWalletReference(r) ==> SameReference(st, st', ledger, r))
  }

  lemma {:induction false} AvoidedNet(es: seq<Entry>, account: string, asset: string)
    requires AvoidsHolds(es) && IsHoldAddress(account)
    ensures NetOf(es, account, asset) == 0 && !Touches(es, account, asset)
  {
    UntouchedNet(es, account, asset);
  }

  lemma TookQuietly(st: State, st': State, l: string, reference: string, es: seq<Entry>)
    requires Took(st, st', l, reference, es) && AvoidsHolds(es) && !IsWalletReference(reference)
    ensures QuietForHolds(st, st')
  {
    forall ledger, account, asset | IsHoldAddress(account) ensures QuietAt(st, st', ledger, account, asset) {
      assert Shifted(st, st', l, es, ledger, account, asset);
      assert ClientShifted(st, st', l, reference, es, ledger, account, asset);
      AvoidedNet(es, account, asset);
    }
    forall ledger, r | IsWalletReference(r) ensures SameReference(st, st', ledger, r) {
      assert Referenced(st, st', l, reference, ledger, r);
    }
  }

  lemma UnmovedQuietly(st: State, st': State)
    requires Unmoved(st, st')
    ensures QuietForHolds(st, st')
  {
    forall ledger, account, asset ensures QuietAt(st, st', ledger, account, asset) {
      UnmovedBalances(st, st', ledger, account, asset, "");
    }
    forall ledger, r ensures SameReference(st, st', ledger, r) {
      UnmovedBalances(st, st', ledger, "", "", r);
    }
  }

  lemma RevertQuietly(st: State, op: Op)
    requires Books(st) && op.RevertOp?
    ensures QuietForHolds(st, Apply(st, op))
  {
    var st' := Apply(st, op);
    RevertTakes(st, op);
    forall ledger, account, asset ensures QuietAt(st, st', ledger, account, asset) {
      assert RevertedAt(st, st', op, ledger, account, asset);
    }
    forall ledger, r | IsWalletReference(r) ensures SameReference(st, st', ledger, r) {
      WalletReferences("", 0, op.id);
      assert ReferencedBut(st, st', RevertReference(op.id), ledger, r);
    }
  }

  lemma ApplyKeepsBooks(st: State, op: Op)
    requires Books(st)
    ensures Books(Apply(st, op))
  {
    var mid := ApplySteps(st, op);
    BooksAfterPost(st, mid, op.ledger);
    BooksAfterMark(mid, Apply(st, op), op.ledger);
  }

  lemma LedgerCallQuietly(st: State, op: Op)
    requires Books(st) && LedgerSafe(st, op)
    ensures QuietForHolds(st, Apply(st, op))
  {
    match op {
      case AccountOp(l, address, kind) =>
        PutAccountKeepsBooks(st, l, address, kind);
        UnmovedQuietly(st, Apply(st, op));
      case PostOp(l, req) =>
        PostTakes(st, l, req);
        if Post(st, l, req).0 != st {
          TookQuietly(st, Post(st, l, req).0, l, req.reference, Entries(req.postings));
        } else {
          UnmovedQuietly(st, st);
        }
      case RevertOp(_, _) => RevertQuietly(st, op);
    }
  }

  lemma QuietRefs(w: World, w': World, ledger: string, h: string)
    requires ColonFree(h) && RefsAt(w, ledger, h) && QuietForHolds(w.books, w'.books)
    requires w'.holds == w.holds && w'.confirms == w.confirms
    requires forall id :: id in w.wallets ==> id in w'.wallets && w'.wallets[id] == w.wallets[id]
    requires h in w.holds ==> HoldSound(w, h)
    ensures RefsAt(w', ledger, h)
  {
    forall a ensures Has(w'.books, ledger, ConfirmReference(h, a)) == Has(w.books, ledger, ConfirmReference(h, a)) {
      WalletReferences(h, a, 0);
      assert SameReference(w.books, w'.books, ledger, ConfirmReference(h, a));
    }
    WalletReferences(h, 0, 0);
    assert SameReference(w.books, w'.books, ledger, HoldReference(h));
    assert SameReference(w.books, w'.books, ledger, VoidReference(h));
    assert LivesIn(w, h, ledger) == LivesIn(w', h, ledger);
  }

  /** Quiet books under the same holds keep the world sound. */
  lemma QuietBooksSound(w: World, w': World)
    requires Sound(w) && Books(w'.books) && QuietForHolds(w.books, w'.books)
    requires w'.holds == w.holds && w'.confirms == w.confirms && w'.nextID >= w.nextID
    requires forall id :: id in w.wallets ==> id in w'.wallets && w'.wallets[id] == w.wallets[id]
    requires forall id :: id in w'.wallets ==> IssuedWallet(id, w'.nextID)
    ensures Sound(w')
  {
    hide Books, Print;
    forall h | h in w'.holds ensures HoldSound(w', h) {
      assert HoldSound(w, h);
      var n :| 0 < n <= w.nextID && h == HoldId(n);
    }
    forall ledger, h | ColonFree(h) ensures RefsAt(w', ledger, h) {
      QuietRefs(w, w', ledger, h);
    }
    forall ledger, walletId, h, asset | ColonFree(walletId) && ColonFree(h)
      ensures NetsAt(w', ledger, walletId, h, asset)
    {
      assert NetsAt(w, ledger, walletId, h, asset);
      assert IsHoldAddress(HoldAddress(walletId, h));
      assert QuietAt(w.books, w'.books, ledger, HoldAddress(walletId, h), asset);
      assert h in w.holds ==> HoldSound(w, h);
    }
  }

  /*** Steps that move money into or out of a hold ***/

  /** One posting between a hold account and an account that is not one. */
  ghost predicate HoldLeg(e: Entry, walletId: string, h: string, into: bool) {
    && ColonFree(walletId) && ColonFree(h)
    && (if into then e.destination == HoldAddress(walletId, h) && !IsHoldAddress(e.source)
        else e.source == HoldAddress(walletId, h) && !IsHoldAddress(e.destination))
  }

  /** A hold account gains or loses on one asset; all other hold accounts are quiet. */
  ghost predicate HoldShift(st: State, st': State, l: string, walletId: string, h: string, asset: string, change: int,
                            ledger: string, wid: string, k: string, s: string) {
    var shift := if ledger == l && wid == walletId && k == h && s == asset then change else 0;
    && BalanceOf(st', ledger, HoldAddress(wid, k), s) == BalanceOf(st, ledger, HoldAddress(wid, k), s) + shift
    && ClientBalance(st', ledger, HoldAddress(wid, k), s) == ClientBalance(st, ledger, HoldAddress(wid, k), s) + shift
    && (Clean(st, ledger, HoldAddress(wid, k), s) ==> Clean(st', ledger, HoldAddress(wid, k), s))
  }

  lemma HoldLegNet(st: State, st': State, l: string, reference: string, e: Entry, walletId: string, h: string,
                   into: bool,
                   ledger: string, wid: string, k: string, asset: string)
    requires Took(st, st', l, reference, [e]) && HoldLeg(e, walletId, h, into) && !IsRevertReference(reference)
    requires ColonFree(wid) && ColonFree(k)
    ensures HoldShift(st, st', l, walletId, h, e.asset, if into then e.amount else -e.amount, ledger, wid, k, asset)
  {
    var address := HoldAddress(wid, k);
    assert IsHoldAddress(address);
    assert Shifted(st, st', l, [e], ledger, address, asset);
    assert ClientShifted(st, st', l, reference, [e], ledger, address, asset);
    OneAssetDoesNotClash([e], e.asset);
    assert [e][..0] == [];
    assert NetOf([e], address, asset) == EntryNet(e, address, asset);
    if address == HoldAddress(walletId, h) {
      HoldAddressInjective(wid, k, walletId, h);
    }
  }

  lemma SingleEntry(reference: string, source: string, destination: string, asset: string, amount: string)
    ensures Entries(Transfer(reference, source, destination, asset, amount).postings)
         == [Entry(source, destination, asset, Value(amount))]
  {
  }

  /** A transfer that is not refused and not a repeat takes one valid posting; otherwise nothing changes. */
  lemma TransferTakes(st: State, l: string, reference: string, source: string, destination: string, asset: string,
                      amount: string)
    ensures var req := Transfer(reference, source, destination, asset, amount);
      var (st', r) := Post(st, l, req);
      if r.Ok? && !Repeats(st, l, req) then
        && Took(st, st', l, reference, [Entry(source, destination, asset, Value(amount))])
        && Value(amount) > 0 && Parse(amount).Some? && asset != "" && source != destination
      else st' == st
    ensures Books(st) ==> Books(Post(st, l, Transfer(reference, source, destination, asset, amount)).0)
  {
    var req := Transfer(reference, source, destination, asset, amount);
    PostTakes(st, l, req);
    SingleEntry(reference, source, destination, asset, amount);
    assert FirstError(req.postings) == PostingError(req.postings[0], 0) by {
      assert req.postings[..0] == [];
    }
    if Books(st) {
      ApplyKeepsBooks(st, PostOp(l, req));
    }
  }

  lemma FreshHold(w: World)
    requires Records(w)
    ensures HoldId(w.nextID + 1) !in w.holds && WalletId(w.nextID + 1) !in w.wallets
    ensures ColonFree(HoldId(w.nextID + 1)) && IssuedHold(HoldId(w.nextID + 1), w.nextID + 1)
  {
    IdsAreColonFree(w.nextID + 1);
    var h := HoldId(w.nextID + 1);
    if h in w.holds {
      assert HoldSound(w, h);
      var n :| 0 < n <= w.nextID && h == HoldId(n);
      IdsInjective(n, w.nextID + 1);
    }
    if WalletId(w.nextID + 1) in w.wallets {
      assert IssuedWallet(WalletId(w.nextID + 1), w.nextID);
      var n :| 0 < n <= w.nextID && WalletId(w.nextID + 1) == WalletId(n);
      IdsInjective(n, w.nextID + 1);
    }
  }

  lemma IssuedIsColonFree(w: World, id: string)
    requires IssuedWallet(id, w.nextID) || IssuedHold(id, w.nextID)
    ensures ColonFree(id)
  {
    if IssuedWallet(id, w.nextID) {
      var n :| 0 < n <= w.nextID && id == WalletId(n);
      IdsAreColonFree(n);
    } else {
      var n :| 0 < n <= w.nextID && id == HoldId(n);
      IdsAreColonFree(n);
    }
  }

  /** What a sound world says of one hold. */
  lemma SoundHold(w: World, h: string)
    requires Sound(w) && h in w.holds
    ensures HoldSound(w, h) && Books(w.books) && IssuedWallet(w.holds[h].walletId, w.nextID)
    ensures ColonFree(h) && ColonFree(w.holds[h].walletId)
  {
    hide RefsAt, NetsAt, Books;
    IssuedIsColonFree(w, h);
    IssuedIsColonFree(w, w.holds[h].walletId);
  }

  /** Everything about one hold changed and nothing about the others. */
  ghost predicate Rewrites(w: World, w': World, h: string) {
    && w'.wallets == w.wallets && w'.nextID >= w.nextID
    && h in w'.holds && h in w'.confirms
    && w'.holds == w.holds[h := w'.holds[h]] && w'.confirms == w.confirms[h := w'.confirms[h]]
  }

  lemma RecordsAfterRewrite(w: World, w': World, h: string)
    requires Records(w) && Rewrites(w, w', h) && HoldSound(w', h)
    ensures Records(w')
  {
    forall k | k in w'.holds ensures HoldSound(w', k) {
      if k != h {
        assert HoldSound(w, k);
        var n :| 0 < n <= w.nextID && k == HoldId(n);
      }
    }
    forall id | id in w'.wallets ensures IssuedWallet(id, w'.nextID) {
      var n :| 0 < n <= w.nextID && id == WalletId(n);
    }
  }

  lemma OtherRefs(w: World, w': World, l: string, reference: string, h: string, ledger: string, k: string)
    requires ColonFree(k) && k != h && Rewrites(w, w', h) && RefsAt(w, ledger, k)
    requires reference == HoldReference(h) || reference == VoidReference(h) ||
             exists a :: reference == ConfirmReference(h, a)
    requires ColonFree(h)
    requires forall r :: Referenced(w.books, w'.books, l, reference, ledger, r)
    ensures RefsAt(w', ledger, k)
  {
    HoldReferenceInjective(h, k);
    KindsDiffer(h, k, 0);
    KindsDiffer(k, h, 0);
    forall a
      ensures reference != ConfirmReference(k, a) && ConfirmReference(k, a) != ""
      ensures reference != HoldReference(k) && reference != VoidReference(k)
    {
      KindsDiffer(h, k, a);
      KindsDiffer(k, h, a);
      if b :| reference == ConfirmReference(h, b) {
        KindsDiffer(k, h, b);
        if reference == ConfirmReference(k, a) {
          ConfirmReferenceInjective(h, b, k, a);
        }
      }
    }
    assert Referenced(w.books, w'.books, l, reference, ledger, HoldReference(k));
    assert Referenced(w.books, w'.books, l, reference, ledger, VoidReference(k));
    forall a ensures Has(w'.books, ledger, ConfirmReference(k, a)) == Has(w.books, ledger, ConfirmReference(k, a)) {
      assert Referenced(w.books, w'.books, l, reference, ledger, ConfirmReference(k, a));
    }
    assert LivesIn(w', k, ledger) == LivesIn(w, k, ledger);
  }

  lemma OtherNets(w: World, w': World, h: string, ledger: string, walletId: string, k: string, asset: string)
    requires k != h && Rewrites(w, w', h) && NetsAt(w, ledger, walletId, k, asset)
    requires QuietAt(w.books, w'.books, ledger, HoldAddress(walletId, k), asset)
    ensures NetsAt(w', ledger, walletId, k, asset)
  {
  }

  /*** Creating a hold ***/

  lemma CreatedRefs(w: World, w': World, l: string, h: string, ledger: string)
    requires ColonFree(h) && h !in w.holds && RefsAt(w, ledger, h) && Rewrites(w, w', h)
    requires LivesIn(w', h, l) && w'.confirms[h] == [] && w'.holds[h].status == Pending
    requires forall r :: Referenced(w.books, w'.books, l, HoldReference(h), ledger, r)
    ensures RefsAt(w', ledger, h)
  {
    forall a ensures !Has(w'.books, ledger, ConfirmReference(h, a)) {
      KindsDiffer(h, h, a);
      assert Referenced(w.books, w'.books, l, HoldReference(h), ledger, ConfirmReference(h, a));
    }
    KindsDiffer(h, h, 0);
    assert Referenced(w.books, w'.books, l, HoldReference(h), ledger, VoidReference(h));
    assert Referenced(w.books, w'.books, l, HoldReference(h), ledger, HoldReference(h));
  }

  ghost predicate NewHold(hold: Hold, e: Entry) {
    && hold.status == Pending && hold.remaining == hold.amount && !IsHoldAddress(OrWorld(hold.destination))
    && hold.asset == e.asset != "" && Parse(hold.amount).Some? && Value(hold.amount) == e.amount > 0
  }

  lemma CreatedSound(w: World, w': World, l: string, h: string, e: Entry)
    requires Sound(w) && Books(w'.books) && Rewrites(w, w', h) && w'.nextID == w.nextID + 1 && h == HoldId(w.nextID + 1)
    requires LivesIn(w', h, l) && w'.confirms[h] == []
    requires NewHold(w'.holds[h], e)
    requires HoldLeg(e, w'.holds[h].walletId, h, true)
    requires Took(w.books, w'.books, l, HoldReference(h), [e])
    ensures Sound(w')
  {
    FreshHold(w);
    NotReversals(h, 0);
    RecordsAfterRewrite(w, w', h);
    forall ledger, k | ColonFree(k) ensures RefsAt(w', ledger, k) {
      assert RefsAt(w, ledger, k);
      if k == h {
        CreatedRefs(w, w', l, h, ledger);
      } else {
        OtherRefs(w, w', l, HoldReference(h), h, ledger, k);
      }
    }
    forall ledger, walletId, k, asset | ColonFree(walletId) && ColonFree(k)
      ensures NetsAt(w', ledger, walletId, k, asset)
    {
      assert NetsAt(w, ledger, walletId, k, asset);
      HoldLegNet(w.books, w'.books, l, HoldReference(h), e, w'.holds[h].walletId, h, true, ledger, walletId, k, asset);
      if k != h {
        OtherNets(w, w', h, ledger, walletId, k, asset);
      }
    }
  }

  lemma NamedQuietly(w: World, ledger: string, address: string)
    requires Sound(w)
    ensures var books := CreateAccount(w.books, ledger, address, "asset").0;
      Sound(w.(books := books, nextID := w.nextID + 1)) && Unmoved(w.books, books)
  {
    var books := CreateAccount(w.books, ledger, address, "asset").0;
    PutAccountKeepsBooks(w.books, ledger, address, "asset");
    UnmovedQuietly(w.books, books);
    ApplyKeepsBooks(w.books, AccountOp(ledger, address, "asset"));
    forall id | id in w.wallets ensures IssuedWallet(id, w.nextID + 1) {
      var n :| 0 < n <= w.nextID && id == WalletId(n);
    }
    QuietBooksSound(w, w.(books := books, nextID := w.nextID + 1));
  }

  /** CreatedSound, with the account already named. */
  lemma CreatedSoundFrom(w: World, w1: World, w': World, l: string, h: string, e: Entry)
    requires Sound(w) && w1 == w.(books := w1.books, nextID := w.nextID + 1) && Unmoved(w.books, w1.books)
    requires Books(w'.books) && Rewrites(w, w', h) && w'.nextID == w.nextID + 1 && h == HoldId(w.nextID + 1)
    requires LivesIn(w', h, l) && w'.confirms[h] == []
    requires NewHold(w'.holds[h], e)
    requires HoldLeg(e, w'.holds[h].walletId, h, true)
    requires Took(w1.books, w'.books, l, HoldReference(h), [e])
    ensures Sound(w')
  {
    forall ledger, account, asset ensures Shifted(w.books, w'.books, l, [e], ledger, account, asset) {
      assert Shifted(w1.books, w'.books, l, [e], ledger, account, asset);
      UnmovedBalances(w.books, w1.books, ledger, account, asset, "");
    }
    forall ledger, account, asset
      ensures ClientShifted(w.books, w'.books, l, HoldReference(h), [e], ledger, account, asset)
    {
      assert ClientShifted(w1.books, w'.books, l, HoldReference(h), [e], ledger, account, asset);
      UnmovedBalances(w.books, w1.books, ledger, account, asset, "");
    }
    forall ledger, r ensures Referenced(w.books, w'.books, l, HoldReference(h), ledger, r) {
      assert Referenced(w1.books, w'.books, l, HoldReference(h), ledger, r);
      UnmovedBalances(w.books, w1.books, ledger, "", "", r);
    }
    CreatedSound(w, w', l, h, e);
  }

  ghost predicate Held(w: World, named: State, books: State, walletId: string, asset: string, amount: string) {
    var h := HoldId(w.nextID + 1);
    && walletId in w.wallets
    && Took(named, books, w.wallets[walletId].ledger, HoldReference(h),
            [Entry(MainAddress(walletId), HoldAddress(walletId, h), asset, Value(amount))])
    && Books(books)
    && Value(amount) > 0 && Parse(amount).Some? && asset != ""
  }

  lemma TransferOutcome(w: World, named: State, walletId: string, asset: string, amount: string)
    requires Sound(w) && walletId in w.wallets && Unmoved(w.books, named) && Books(named)
    ensures var (books, tx) := Post(named, w.wallets[walletId].ledger, HoldTransfer(w, walletId, asset, amount));
      if tx.Ok? then Held(w, named, books, walletId, asset, amount) else books == named
  {
    hide Books, Post, Print;
    var l, h := w.wallets[walletId].ledger, HoldId(w.nextID + 1);
    FreshHold(w);
    assert RefsAt(w, l, h);
    UnmovedBalances(w.books, named, l, "", "", HoldReference(h));
    TransferTakes(named, l, HoldReference(h), MainAddress(walletId), HoldAddress(walletId, h), asset, amount);
  }

  lemma HeldSound(w: World, named: State, books: State, walletId: string, asset: string, amount: string,
                  destination: string)
    requires Sound(w) && Unmoved(w.books, named) && Held(w, named, books, walletId, asset, amount)
    requires !IsHoldAddress(destination)
    ensures var h := HoldId(w.nextID + 1);
      Sound(World(books, w.wallets, w.holds[h := Hold(h, walletId, asset, amount, destination, amount, Pending)],
                  w.nextID + 1, w.confirms[h := []]))
  {
    var h := HoldId(w.nextID + 1);
    var e := Entry(MainAddress(walletId), HoldAddress(walletId, h), asset, Value(amount));
    var w' := World(books, w.wallets, w.holds[h := Hold(h, walletId, asset, amount, destination, amount, Pending)],
                    w.nextID + 1, w.confirms[h := []]);
    FreshHold(w);
    IssuedIsColonFree(w, walletId);
    MainIsNoHoldAddress(walletId);
    WorldIsNotHold();
    CreatedSoundFrom(w, w.(books := named, nextID := w.nextID + 1), w', w.wallets[walletId].ledger, h, e);
  }

  lemma FundHoldSound(w: World, named: State, walletId: string, asset: string, amount: string, destination: string)
    requires Sound(w) && walletId in w.wallets && Unmoved(w.books, named) && Books(named) && !IsHoldAddress(destination)
    requires Sound(w.(books := named, nextID := w.nextID + 1))
    ensures Sound(FundHold(w, named, walletId, asset, amount, destination).0)
  {
    TransferOutcome(w, named, walletId, asset, amount);
    var (books, tx) := Post(named, w.wallets[walletId].ledger, HoldTransfer(w, walletId, asset, amount));
    if tx.Ok? {
      HeldSound(w, named, books, walletId, asset, amount, destination);
    }
  }

  lemma CreateHoldSound(w: World, walletId: string, asset: string, amount: string, destination: string)
    requires Sound(w) && !IsHoldAddress(destination)
    ensures Sound(CreateHold(w, walletId, asset, amount, destination).0)
  {
    if walletId in w.wallets {
      var l, address := w.wallets[walletId].ledger, HoldAddress(walletId, HoldId(w.nextID + 1));
      NamedQuietly(w, l, address);
      var (named, account) := CreateAccount(w.books, l, address, "asset");
      if account.Ok? {
        FundHoldSound(w, named, walletId, asset, amount, destination);
      }
    }
  }

  /*** Confirming ***/

  lemma ConfirmedCounts(amount: int, remaining: int, status: Status, confirms: seq<int>, confirmed: int)
    requires Counts(amount, remaining, status, confirms) && (status == Pending || status == Partial)
    requires 0 < confirmed <= remaining
    ensures Counts(amount, remaining - confirmed, if remaining == confirmed then Confirmed else Partial,
                   confirms + [confirmed])
  {
    assert (confirms + [confirmed])[..|confirms|] == confirms;
  }

  lemma ConfirmedHoldSound(w: World, w': World, h: string, confirmed: int)
    requires HoldSound(w, h) && Rewrites(w, w', h)
    requires w.holds[h].Open() && 0 < confirmed <= Value(w.holds[h].remaining)
    requires w'.holds[h] == AfterConfirm(w.holds[h], Value(w.holds[h].remaining) - confirmed)
    requires w'.confirms[h] == w.confirms[h] + [confirmed]
    ensures HoldSound(w', h)
  {
    hide Value;
    var hold := w.holds[h];
    var n :| 0 < n <= w.nextID && h == HoldId(n);
    ParsePrint(Value(hold.remaining) - confirmed);
    ConfirmedCounts(Value(hold.amount), Value(hold.remaining), hold.status, w.confirms[h], confirmed);
  }

  lemma ConfirmedRefs(w: World, w': World, l: string, h: string, confirmed: int, ledger: string)
    requires ColonFree(h) && RefsAt(w, ledger, h) && Rewrites(w, w', h)
    requires LivesIn(w, h, l) && LivesIn(w', h, l) && w'.confirms[h] == w.confirms[h] + [confirmed]
    requires w.holds[h].walletId == w'.holds[h].walletId
    requires w.holds[h].status != Voided && w'.holds[h].status != Voided
    requires forall r :: Referenced(w.books, w'.books, l, ConfirmReference(h, confirmed), ledger, r)
    ensures RefsAt(w', ledger, h)
  {
    KindsDiffer(h, h, confirmed);
    assert Referenced(w.books, w'.books, l, ConfirmReference(h, confirmed), ledger, VoidReference(h));
    assert Referenced(w.books, w'.books, l, ConfirmReference(h, confirmed), ledger, HoldReference(h));
    forall a
      ensures Has(w'.books, ledger, ConfirmReference(h, a)) <==>
              Has(w.books, ledger, ConfirmReference(h, a)) || (ledger == l && a == confirmed)
    {
      KindsDiffer(h, h, a);
      assert Referenced(w.books, w'.books, l, ConfirmReference(h, confirmed), ledger, ConfirmReference(h, a));
      if ConfirmReference(h, a) == ConfirmReference(h, confirmed) {
        ConfirmReferenceInjective(h, a, h, confirmed);
      }
    }
  }

  ghost predicate HoldPaid(st: State, st': State, l: string, reference: string, walletId: string, h: string,
                           asset: string,
                           change: int) {
    && Books(st')
    && (forall ledger, wid, k, s :: ColonFree(wid) && ColonFree(k) ==>
          HoldShift(st, st', l, walletId, h, asset, change, ledger, wid, k, s))
    && (forall ledger, r :: Referenced(st, st', l, reference, ledger, r))
  }

  /** A payment out of a hold account under one of its references: it moves money unless the reference repeats. */
  lemma PaidOut(st: State, l: string, reference: string, walletId: string, h: string, destination: string,
                asset: string,
                amount: int)
    requires Books(st) && ColonFree(walletId) && ColonFree(h) && !IsHoldAddress(destination)
    requires reference != "" && !IsRevertReference(reference)
    ensures var req := Transfer(reference, HoldAddress(walletId, h), destination, asset, Print(amount));
      var (st', r) := Post(st, l, req);
      if r.Ok? then HoldPaid(st, st', l, reference, walletId, h, asset, if Has(st, l, reference) then 0 else -amount)
      else st' == st
  {
    var source := HoldAddress(walletId, h);
    var req := Transfer(reference, source, destination, asset, Print(amount));
    var (st', r) := Post(st, l, req);
    TransferTakes(st, l, reference, source, destination, asset, Print(amount));
    ParsePrint(amount);
    if r.Ok? {
      var change := if Has(st, l, reference) then 0 else -amount;
      forall ledger, wid, k, s | ColonFree(wid) && ColonFree(k)
        ensures HoldShift(st, st', l, walletId, h, asset, change, ledger, wid, k, s)
      {
        if !Repeats(st, l, req) {
          HoldLegNet(st, st', l, reference, Entry(source, destination, asset, amount), walletId, h, false, ledger, wid,
                     k, s);
        }
      }
      forall ledger, k ensures Referenced(st, st', l, reference, ledger, k) {}
    }
  }

  lemma {:induction false} RepeatedAppend(amounts: seq<int>, amount: int)
    ensures Repeated(amounts + [amount]) == Repeated(amounts) + if amount in amounts then amount else 0
  {
    assert (amounts + [amount])[..|amounts|] == amounts;
  }

  lemma NetsAfterPayment(w: World, w': World, l: string, reference: string, h: string, change: int,
                         ledger: string, walletId: string, k: string, asset: string)
    requires Rewrites(w, w', h) && LivesIn(w, h, l) && LivesIn(w', h, l)
    requires w'.holds[h].walletId == w.holds[h].walletId && w'.holds[h].asset == w.holds[h].asset
    requires HoldPaid(w.books, w'.books, l, reference, w.holds[h].walletId, h, w.holds[h].asset, change)
    requires Value(w'.holds[h].remaining) + Repeated(w'.confirms[h]) ==
             Value(w.holds[h].remaining) + Repeated(w.confirms[h]) + change
    requires ColonFree(walletId) && ColonFree(k) && NetsAt(w, ledger, walletId, k, asset)
    ensures NetsAt(w', ledger, walletId, k, asset)
  {
    assert HoldShift(w.books, w'.books, l, w.holds[h].walletId, h, w.holds[h].asset, change, ledger, walletId, k,
                     asset);
  }

  lemma ConfirmedAllRefs(w: World, w': World, l: string, h: string, confirmed: int)
    requires Rewrites(w, w', h) && ColonFree(h)
    requires forall ledger, k :: ColonFree(k) ==> RefsAt(w, ledger, k)
    requires LivesIn(w, h, l) && LivesIn(w', h, l) && w'.confirms[h] == w.confirms[h] + [confirmed]
    requires w.holds[h].walletId == w'.holds[h].walletId
    requires w.holds[h].status != Voided && w'.holds[h].status != Voided
    requires forall ledger, r :: Referenced(w.books, w'.books, l, ConfirmReference(h, confirmed), ledger, r)
    ensures forall ledger, k :: ColonFree(k) ==> RefsAt(w', ledger, k)
  {
    forall ledger, k | ColonFree(k) ensures RefsAt(w', ledger, k) {
      assert RefsAt(w, ledger, k);
      if k == h {
        ConfirmedRefs(w, w', l, h, confirmed, ledger);
      } else {
        OtherRefs(w, w', l, ConfirmReference(h, confirmed), h, ledger, k);
      }
    }
  }

  /** What a successful confirm leaves behind. */
  ghost predicate ConfirmStep(w: World, w': World, l: string, h: string, confirmed: int) {
    && Rewrites(w, w', h) && w'.nextID == w.nextID && LivesIn(w, h, l)
    && w.holds[h].Open() && 0 < confirmed <= Value(w.holds[h].remaining)
    && w'.holds[h] == AfterConfirm(w.holds[h], Value(w.holds[h].remaining) - confirmed)
    && w'.confirms[h] == w.confirms[h] + [confirmed]
    && HoldPaid(w.books, w'.books, l, ConfirmReference(h, confirmed), w.holds[h].walletId, h, w.holds[h].asset,
                if Has(w.books, l, ConfirmReference(h, confirmed)) then 0 else -confirmed)
  }

  lemma ConfirmedSound(w: World, w': World, l: string, h: string, confirmed: int)
    requires Sound(w) && ConfirmStep(w, w', l, h, confirmed)
    ensures Sound(w')
  {
    assert HoldSound(w, h);
    IssuedIsColonFree(w, h);
    ConfirmedHoldSound(w, w', h, confirmed);
    RecordsAfterRewrite(w, w', h);
    assert RefsAt(w, l, h);
    ConfirmedAllRefs(w, w', l, h, confirmed);
    RepeatedAppend(w.confirms[h], confirmed);
    ParsePrint(Value(w.holds[h].remaining) - confirmed);
    var change := if Has(w.books, l, ConfirmReference(h, confirmed)) then 0 else -confirmed;
    forall ledger, walletId, k, asset | ColonFree(walletId) && ColonFree(k)
      ensures NetsAt(w', ledger, walletId, k, asset)
    {
      assert NetsAt(w, ledger, walletId, k, asset);
      NetsAfterPayment(w, w', l, ConfirmReference(h, confirmed), h, change, ledger, walletId, k, asset);
    }
  }

  /** The payment a confirm or void makes, and the hold it makes it for. */
  lemma HoldPayment(w: World, h: string, reference: string, destination: string, amount: int)
    requires Sound(w) && HoldError(w, h) == None && !IsHoldAddress(destination)
    requires reference != "" && !IsRevertReference(reference)
    ensures var hold := w.holds[h]; var l := w.wallets[hold.walletId].ledger;
      var (books, r) := Post(w.books, l, Transfer(reference, HoldAddress(hold.walletId, h), destination, hold.asset,
                                                  Print(amount)));
      && LivesIn(w, h, l)
      && if r.Ok? then HoldPaid(w.books, books, l, reference, hold.walletId, h, hold.asset,
                                if Has(w.books, l, reference) then 0 else -amount)
         else books == w.books
  {
    hide Sound, HoldPaid, Post;
    var hold := w.holds[h];
    SoundHold(w, h);
    PaidOut(w.books, w.wallets[hold.walletId].ledger, reference, hold.walletId, h, destination, hold.asset, amount);
  }

  lemma PayConfirmedOutcome(w: World, h: string, confirmed: int)
    requires Sound(w) && HoldError(w, h) == None && 0 < confirmed <= Value(w.holds[h].remaining)
    ensures var (w', r) := PayConfirmed(w, h, confirmed);
      if r.Ok? then ConfirmStep(w, w', w.wallets[w.holds[h].walletId].ledger, h, confirmed) else w' == w
  {
    hide Sound, HoldPaid, Post;
    SoundHold(w, h);
    KindsDiffer(h, h, confirmed);
    NotReversals(h, confirmed);
    HoldPayment(w, h, ConfirmReference(h, confirmed), OrWorld(w.holds[h].destination), confirmed);
  }

  /** A confirm call is refused without effect, or makes one confirm step. */
  lemma ConfirmOutcome(w: World, h: string, amount: string)
    requires Sound(w)
    ensures var (w', r) := ConfirmHold(w, h, amount);
      if r.Ok? then
        h in w.holds && w.holds[h].walletId in w.wallets && ConfirmAmount(Value(w.holds[h].remaining), amount).Ok? &&
        ConfirmStep(w, w', w.wallets[w.holds[h].walletId].ledger, h,
                    ConfirmAmount(Value(w.holds[h].remaining), amount).value)
      else w' == w
  {
    hide Sound, ConfirmStep, PayConfirmed, Print;
    if HoldError(w, h) == None {
      SoundHold(w, h);
      var c := ConfirmAmount(Value(w.holds[h].remaining), amount);
      if c.Ok? {
        PayConfirmedOutcome(w, h, c.value);
      }
    }
  }

  lemma ConfirmHoldSound(w: World, h: string, amount: string)
    requires Sound(w)
    ensures Sound(ConfirmHold(w, h, amount).0)
  {
    ConfirmOutcome(w, h, amount);
    var (w', r) := ConfirmHold(w, h, amount);
    if r.Ok? {
      var hold := w.holds[h];
      ConfirmedSound(w, w', w.wallets[hold.walletId].ledger, h, ConfirmAmount(Value(hold.remaining), amount).value);
    }
  }

  /*** Voiding ***/

  lemma VoidedRefs(w: World, w': World, l: string, h: string, ledger: string)
    requires ColonFree(h) && RefsAt(w, ledger, h) && Rewrites(w, w', h)
    requires LivesIn(w, h, l) && LivesIn(w', h, l) && w'.confirms[h] == w.confirms[h]
    requires w.holds[h].walletId == w'.holds[h].walletId && w'.holds[h].status == Voided
    requires forall r :: Referenced(w.books, w'.books, l, VoidReference(h), ledger, r)
    ensures RefsAt(w', ledger, h)
  {
    KindsDiffer(h, h, 0);
    assert Referenced(w.books, w'.books, l, VoidReference(h), ledger, VoidReference(h));
    assert Referenced(w.books, w'.books, l, VoidReference(h), ledger, HoldReference(h));
    forall a ensures Has(w'.books, ledger, ConfirmReference(h, a)) == Has(w.books, ledger, ConfirmReference(h, a)) {
      KindsDiffer(h, h, a);
      assert Referenced(w.books, w'.books, l, VoidReference(h), ledger, ConfirmReference(h, a));
    }
  }

  ghost predicate VoidStep(w: World, w': World, l: string, h: string) {
    && Rewrites(w, w', h) && w'.nextID == w.nextID && LivesIn(w, h, l)
    && w.holds[h].Open()
    && w'.holds[h] == w.holds[h].(remaining := "0", status := Voided) && w'.confirms[h] == w.confirms[h]
    && HoldPaid(w.books, w'.books, l, VoidReference(h), w.holds[h].walletId, h, w.holds[h].asset,
                if Has(w.books, l, VoidReference(h)) then 0 else -Value(w.holds[h].remaining))
  }

  lemma VoidedHoldSound(w: World, w': World, h: string)
    requires HoldSound(w, h) && Rewrites(w, w', h) && w.holds[h].Open()
    requires w'.holds[h] == w.holds[h].(remaining := "0", status := Voided) && w'.confirms[h] == w.confirms[h]
    ensures HoldSound(w', h) && Value(w'.holds[h].remaining) == 0
  {
    var n :| 0 < n <= w.nextID && h == HoldId(n);
    ParsePrint(0);
    assert Print(0) == "0";
  }

  lemma VoidedAllRefs(w: World, w': World, l: string, h: string)
    requires Rewrites(w, w', h) && ColonFree(h)
    requires forall ledger, k :: ColonFree(k) ==> RefsAt(w, ledger, k)
    requires LivesIn(w, h, l) && LivesIn(w', h, l) && w'.confirms[h] == w.confirms[h]
    requires w.holds[h].walletId == w'.holds[h].walletId && w'.holds[h].status == Voided
    requires forall ledger, r :: Referenced(w.books, w'.books, l, VoidReference(h), ledger, r)
    ensures forall ledger, k :: ColonFree(k) ==> RefsAt(w', ledger, k)
  {
    forall ledger, k | ColonFree(k) ensures RefsAt(w', ledger, k) {
      assert RefsAt(w, ledger, k);
      if k == h {
        VoidedRefs(w, w', l, h, ledger);
      } else {
        OtherRefs(w, w', l, VoidReference(h), h, ledger, k);
      }
    }
  }

  lemma VoidedSound(w: World, w': World, l: string, h: string)
    requires Sound(w) && VoidStep(w, w', l, h)
    ensures Sound(w')
  {
    hide Books, Print;
    assert HoldSound(w, h);
    IssuedIsColonFree(w, h);
    VoidedHoldSound(w, w', h);
    RecordsAfterRewrite(w, w', h);
    assert RefsAt(w, l, h);
    VoidedAllRefs(w, w', l, h);
    forall ledger, walletId, k, asset | ColonFree(walletId) && ColonFree(k)
      ensures NetsAt(w', ledger, walletId, k, asset)
    {
      assert NetsAt(w, ledger, walletId, k, asset);
      NetsAfterPayment(w, w', l, VoidReference(h), h, -Value(w.holds[h].remaining), ledger, walletId, k, asset);
    }
  }

  lemma PayVoidedOutcome(w: World, h: string)
    requires Sound(w) && HoldError(w, h) == None
    ensures var (w', r) := PayVoided(w, h);
      if r.Ok? then VoidStep(w, w', w.wallets[w.holds[h].walletId].ledger, h) else w' == w
  {
    hide Sound, HoldPaid, Post, Print;
    var hold := w.holds[h];
    SoundHold(w, h);
    MainIsNoHoldAddress(hold.walletId);
    KindsDiffer(h, h, 0);
    NotReversals(h, 0);
    HoldPayment(w, h, VoidReference(h), MainAddress(hold.walletId), Value(hold.remaining));
    assert w.confirms[h := w.confirms[h]] == w.confirms;
  }

  /** A void call is refused without effect, or makes one void step. */
  lemma VoidOutcome(w: World, h: string)
    requires Sound(w)
    ensures var (w', r) := VoidHold(w, h);
      if r.Ok? then
        h in w.holds && w.holds[h].walletId in w.wallets && VoidStep(w, w', w.wallets[w.holds[h].walletId].ledger, h)
      else w' == w
  {
    if HoldError(w, h) == None {
      PayVoidedOutcome(w, h);
    }
  }

  lemma VoidHoldSound(w: World, h: string)
    requires Sound(w)
    ensures Sound(VoidHold(w, h).0)
  {
    VoidOutcome(w, h);
    var (w', r) := VoidHold(w, h);
    if r.Ok? {
      VoidedSound(w, w', w.wallets[w.holds[h].walletId].ledger, h);
    }
  }

  /*** Whole runs ***/

  lemma LedgerCallSound(w: World, op: Op)
    requires Sound(w) && LedgerSafe(w.books, op)
    ensures Sound(w.(books := Apply(w.books, op)))
  {
    LedgerCallQuietly(w.books, op);
    ApplyKeepsBooks(w.books, op);
    QuietBooksSound(w, w.(books := Apply(w.books, op)));
  }

  lemma PaySound(w: World, walletId: string, source: string, destination: string, asset: string, amount: string)
    requires Sound(w) && walletId in w.wallets && !IsHoldAddress(source) && !IsHoldAddress(destination)
    ensures Sound(Pay(w, walletId, source, destination, asset, amount).0)
  {
    var op := PostOp(w.wallets[walletId].ledger, Transfer("", source, destination, asset, amount));
    WalletReferences("", 0, 0);
    SingleEntry("", source, destination, asset, amount);
    LedgerCallSound(w, op);
  }

  lemma CreateWalletSound(w: World, ledger: string, name: string)
    requires Sound(w)
    ensures Sound(CreateWallet(w, ledger, name).0)
  {
    hide Post, Print, Books, RefsAt, NetsAt;
    var (w', r) := CreateWallet(w, ledger, name);
    FreshHold(w);
    NamedQuietly(w, ledger, MainAddress(WalletId(w.nextID + 1)));
    var w1 := w.(books := w'.books, nextID := w.nextID + 1);
    if r.Ok? {
      UnmovedQuietly(w.books, w'.books);
      forall id | id in w'.wallets ensures IssuedWallet(id, w'.nextID) {
        if id in w.wallets {
          var n :| 0 < n <= w.nextID && id == WalletId(n);
        } else {
          assert id == WalletId(w.nextID + 1);
        }
      }
      QuietBooksSound(w, w');
    } else {
      assert w' == w1;
    }
  }

  lemma StepSound(w: World, call: Call)
    requires Sound(w) && Allowed(w, call)
    ensures Sound(Step(w, call))
  {
    WorldIsNotHold();
    match call {
      case CreateWalletCall(ledger, name) => CreateWalletSound(w, ledger, name);
      case CreditCall(walletId, asset, amount, other) =>
        if walletId in w.wallets {
          IssuedIsColonFree(w, walletId);
          MainIsNoHoldAddress(walletId);
          PaySound(w, walletId, OrWorld(other), MainAddress(walletId), asset, amount);
        }
      case DebitCall(walletId, asset, amount, other) =>
        if walletId in w.wallets {
          IssuedIsColonFree(w, walletId);
          MainIsNoHoldAddress(walletId);
          PaySound(w, walletId, MainAddress(walletId), OrWorld(other), asset, amount);
        }
      case CreateHoldCall(walletId, asset, amount, other) => CreateHoldSound(w, walletId, asset, amount, other);
      case ConfirmCall(holdId, amount) => ConfirmHoldSound(w, holdId, amount);
      case VoidCall(holdId) => VoidHoldSound(w, holdId);
      case LedgerCall(op) => LedgerCallSound(w, op);
    }
  }

  /** Every world that allowed calls can reach is sound. */
  lemma {:induction false} RunSound(calls: seq<Call>)
    requires AllAllowed(calls)
    ensures Sound(After(calls))
  {
    hide Step, Print;
    if calls == [] {
      RunKeepsBooks([]);
      assert forall l :: Txs(EMPTY, l) == [];
      forall ledger, walletId, h, asset ensures NetsAt(NEW_WORLD, ledger, walletId, h, asset) {
        assert ClientBalance(EMPTY, ledger, HoldAddress(walletId, h), asset) == 0;
      }
    } else {
      var n := |calls| - 1;
      assert forall i :: 0 <= i < n ==> calls[..n][..i] == calls[..i];
      RunSound(calls[..n]);
      StepSound(After(calls[..n]), calls[n]);
    }
  }

  lemma CreateHoldTrace(w: World, walletId: string, asset: string, amount: string, other: string, ops: seq<Op>)
    returns (more: seq<Op>)
    requires w.books == Run(ops)
    ensures CreateHold(w, walletId, asset, amount, other).0.books == Run(more)
  {
    hide Post;
    more := ops;
    if walletId in w.wallets {
      var l := w.wallets[walletId].ledger;
      var named := AccountOp(l, HoldAddress(walletId, HoldId(w.nextID + 1)), "asset");
      more := ops + [named];
      LedgerRuns.RunOneMore(ops, named);
      if CreateAccount(w.books, l, named.address, "asset").1.Ok? {
        var posted := PostOp(l, HoldTransfer(w, walletId, asset, amount));
        more := more + [posted];
        LedgerRuns.RunOneMore(ops + [named], posted);
      }
    }
  }

  function ConfirmOp(w: World, h: string, confirmed: int): Op
    requires HoldError(w, h) == None
  {
    var hold := w.holds[h];
    PostOp(w.wallets[hold.walletId].ledger, Transfer(ConfirmReference(h, confirmed), HoldAddress(hold.walletId, h),
           OrWorld(hold.destination), hold.asset, Print(confirmed)))
  }

  lemma ConfirmTrace(w: World, h: string, amount: string, ops: seq<Op>) returns (more: seq<Op>)
    requires w.books == Run(ops)
    ensures ConfirmHold(w, h, amount).0.books == Run(more)
  {
    more := ops;
    if HoldError(w, h) == None && ConfirmAmount(Value(w.holds[h].remaining), amount).Ok? {
      var op := ConfirmOp(w, h, ConfirmAmount(Value(w.holds[h].remaining), amount).value);
      more := ops + [op];
      LedgerRuns.RunOneMore(ops, op);
    }
  }

  lemma VoidTrace(w: World, h: string, ops: seq<Op>) returns (more: seq<Op>)
    requires w.books == Run(ops)
    ensures VoidHold(w, h).0.books == Run(more)
  {
    more := ops;
    if HoldError(w, h) == None && Value(w.holds[h].remaining) > 0 {
      var hold := w.holds[h];
      var op := PostOp(w.wallets[hold.walletId].ledger, Transfer(VoidReference(h), HoldAddress(hold.walletId, h),
                       MainAddress(hold.walletId), hold.asset, Print(Value(hold.remaining))));
      more := ops + [op];
      LedgerRuns.RunOneMore(ops, op);
    }
  }

  lemma StepTrace(w: World, call: Call, ops: seq<Op>) returns (more: seq<Op>)
    requires w.books == Run(ops)
    ensures Step(w, call).books == Run(more)
  {
    hide Post;
    more := ops;
    match call {
      case CreateWalletCall(ledger, name) =>
        more := ops + [AccountOp(ledger, MainAddress(WalletId(w.nextID + 1)), "asset")];
        LedgerRuns.RunOneMore(ops, AccountOp(ledger, MainAddress(WalletId(w.nextID + 1)), "asset"));
      case CreditCall(walletId, asset, amount, other) =>
        if walletId in w.wallets {
          var op := PostOp(w.wallets[walletId].ledger,
                           Transfer("", OrWorld(other), MainAddress(walletId), asset, amount));
          more := ops + [op];
          LedgerRuns.RunOneMore(ops, op);
        }
      case DebitCall(walletId, asset, amount, other) =>
        if walletId in w.wallets {
          var op := PostOp(w.wallets[walletId].ledger,
                           Transfer("", MainAddress(walletId), OrWorld(other), asset, amount));
          more := ops + [op];
          LedgerRuns.RunOneMore(ops, op);
        }
      case CreateHoldCall(walletId, asset, amount, other) =>
        more := CreateHoldTrace(w, walletId, asset, amount, other, ops);
      case ConfirmCall(h, amount) => more := ConfirmTrace(w, h, amount, ops);
      case VoidCall(h) => more := VoidTrace(w, h, ops);
      case LedgerCall(op) =>
        more := ops + [op];
        LedgerRuns.RunOneMore(ops, op);
    }
  }

  /** Whatever the wallet service does to the ledger is a run of ledger calls. */
  lemma {:induction false} BooksAreRun(calls: seq<Call>) returns (ops: seq<Op>)
    ensures After(calls).books == Run(ops)
  {
    ops := [];
    if calls != [] {
      ops := BooksAreRun(calls[..|calls| - 1]);
      ops := StepTrace(After(calls[..|calls| - 1]), calls[|calls| - 1], ops);
    }
  }

  /** What the ledger reports for a hold's account. */
  function HoldBalance(w: World, h: string): int
    requires h in w.holds && w.holds[h].walletId in w.wallets
  {
    var hold := w.holds[h];
    Reported(w.books, w.wallets[hold.walletId].ledger, HoldAddress(hold.walletId, h), hold.asset)
  }

  /*** What reverts take back ***/

  /** What the reverts of a run took back from an account: minus the effects of the transactions whose reversals they
      posted. */
  function Reversed(calls: seq<Call>, ledger: string, account: string, asset: string): int {
    if calls == [] then 0
    else
      var front, last := calls[..|calls| - 1], calls[|calls| - 1];
      Reversed(front, ledger, account, asset) +
        if last.LedgerCall? then TakenBack(After(front).books, last.op, ledger, account, asset) else 0
  }

  /** What the stored reversals put on an account. */
  function ReversalPart(st: State, ledger: string, account: string, asset: string): int {
    BalanceOf(st, ledger, account, asset) - ClientBalance(st, ledger, account, asset)
  }

  /** Nobody posts to this account under a revert reference. */
  predicate Unforged(op: Op, account: string, asset: string) {
    op.PostOp? && IsRevertReference(op.request.reference) ==> NetOf(Entries(op.request.postings), account, asset) == 0
  }

  lemma PostReversalPart(st: State, l: string, req: Request, ledger: string, account: string, asset: string)
    requires Unforged(PostOp(l, req), account, asset)
    ensures ReversalPart(Post(st, l, req).0, ledger, account, asset) == ReversalPart(st, ledger, account, asset)
  {
    PostTakes(st, l, req);
    var st' := Post(st, l, req).0;
    if st' != st {
      assert Shifted(st, st', l, Entries(req.postings), ledger, account, asset);
      assert ClientShifted(st, st', l, req.reference, Entries(req.postings), ledger, account, asset);
    }
  }

  lemma NamedReversalPart(st: State, l: string, address: string, kind: string, ledger: string, account: string,
                          asset: string)
    ensures ReversalPart(CreateAccount(st, l, address, kind).0, ledger, account, asset) ==
            ReversalPart(st, ledger, account, asset)
  {
    PutAccountKeepsBooks(st, l, address, kind);
    UnmovedBalances(st, CreateAccount(st, l, address, kind).0, ledger, account, asset, "");
  }

  lemma LedgerCallReversals(st: State, op: Op, ledger: string, account: string, asset: string)
    requires Books(st) && Unforged(op, account, asset)
    ensures ReversalPart(Apply(st, op), ledger, account, asset) ==
            ReversalPart(st, ledger, account, asset) + TakenBack(st, op, ledger, account, asset)
  {
    hide Post, Revert, CreateAccount;
    match op {
      case AccountOp(l, address, kind) => NamedReversalPart(st, l, address, kind, ledger, account, asset);
      case PostOp(l, req) => PostReversalPart(st, l, req, ledger, account, asset);
      case RevertOp(_, _) =>
        RevertTakes(st, op);
        assert RevertedAt(st, Apply(st, op), op, ledger, account, asset);
    }
  }

  lemma CreateHoldReversals(w: World, walletId: string, asset: string, amount: string, other: string,
                            ledger: string, account: string, unit: string)
    ensures ReversalPart(CreateHold(w, walletId, asset, amount, other).0.books, ledger, account, unit) ==
            ReversalPart(w.books, ledger, account, unit)
  {
    hide Post, CreateAccount, ReversalPart;
    if walletId in w.wallets {
      var l, h := w.wallets[walletId].ledger, HoldId(w.nextID + 1);
      NamedReversalPart(w.books, l, HoldAddress(walletId, h), "asset", ledger, account, unit);
      var named := CreateAccount(w.books, l, HoldAddress(walletId, h), "asset").0;
      NotReversals(h, 0);
      PostReversalPart(named, l, HoldTransfer(w, walletId, asset, amount), ledger, account, unit);
    }
  }

  lemma ConfirmReversals(w: World, h: string, amount: string, ledger: string, account: string, asset: string)
    ensures ReversalPart(ConfirmHold(w, h, amount).0.books, ledger, account, asset) ==
            ReversalPart(w.books, ledger, account, asset)
  {
    hide Post, ReversalPart;
    if HoldError(w, h) == None && ConfirmAmount(Value(w.holds[h].remaining), amount).Ok? {
      var op := ConfirmOp(w, h, ConfirmAmount(Value(w.holds[h].remaining), amount).value);
      NotReversals(h, ConfirmAmount(Value(w.holds[h].remaining), amount).value);
      PostReversalPart(w.books, op.ledger, op.request, ledger, account, asset);
    }
  }

  lemma VoidReversals(w: World, h: string, ledger: string, account: string, asset: string)
    ensures ReversalPart(VoidHold(w, h).0.books, ledger, account, asset) ==
      ReversalPart(w.books, ledger, account, asset)
  {
    hide Post, ReversalPart;
    if HoldError(w, h) == None && Value(w.holds[h].remaining) > 0 {
      var hold := w.holds[h];
      NotReversals(h, 0);
      PostReversalPart(w.books, w.wallets[hold.walletId].ledger,
                       Transfer(VoidReference(h), HoldAddress(hold.walletId, h),
                       MainAddress(hold.walletId), hold.asset, Print(Value(hold.remaining))), ledger, account, asset);
    }
  }

  lemma PayReversals(w: World, walletId: string, source: string, destination: string, asset: string, amount: string,
                     ledger: string, account: string, unit: string)
    requires walletId in w.wallets
    ensures ReversalPart(Pay(w, walletId, source, destination, asset, amount).0.books, ledger, account, unit) ==
            ReversalPart(w.books, ledger, account, unit)
  {
    hide Post, ReversalPart;
    NotReversals("", 0);
    PostReversalPart(w.books, w.wallets[walletId].ledger, Transfer("", source, destination, asset, amount), ledger,
                     account,
                     unit);
  }

  /** The wallet service itself posts no reversals. */
  lemma WalletCallReversals(w: World, call: Call, ledger: string, account: string, asset: string)
    requires !call.LedgerCall?
    ensures ReversalPart(Step(w, call).books, ledger, account, asset) == ReversalPart(w.books, ledger, account, asset)
  {
    hide ReversalPart, Pay, CreateAccount, ConfirmHold, VoidHold, CreateHold;
    match call {
      case CreateWalletCall(l, name) =>
        NamedReversalPart(w.books, l, MainAddress(WalletId(w.nextID + 1)), "asset", ledger, account, asset);
      case CreditCall(id, unit, amount, other) =>
        if id in w.wallets {
          PayReversals(w, id, OrWorld(other), MainAddress(id), unit, amount, ledger, account, asset);
        }
      case DebitCall(id, unit, amount, other) =>
        if id in w.wallets {
          PayReversals(w, id, MainAddress(id), OrWorld(other), unit, amount, ledger, account, asset);
        }
      case CreateHoldCall(id, unit, amount, other) =>
        CreateHoldReversals(w, id, unit, amount, other, ledger, account, asset);
      case ConfirmCall(h, amount) => ConfirmReversals(w, h, amount, ledger, account, asset);
      case VoidCall(h) => VoidReversals(w, h, ledger, account, asset);
    }
  }

  predicate AllUnforged(calls: seq<Call>, account: string, asset: string) {
    forall i :: 0 <= i < |calls| && calls[i].LedgerCall? ==> Unforged(calls[i].op, account, asset)
  }

  lemma NothingReversed(ledger: string, account: string, asset: string)
    ensures BalanceOf(EMPTY, ledger, account, asset) == 0 && ClientBalance(EMPTY, ledger, account, asset) == 0
  {
    assert Txs(EMPTY, ledger) == [];
  }

  lemma StepReversals(w: World, call: Call, ledger: string, account: string, asset: string)
    requires Books(w.books) && (call.LedgerCall? ==> Unforged(call.op, account, asset))
    ensures ReversalPart(Step(w, call).books, ledger, account, asset) == ReversalPart(w.books, ledger, account, asset) +
      if call.LedgerCall? then TakenBack(w.books, call.op, ledger, account, asset) else 0
  {
    hide Unforged, TakenBack, ReversalPart, Books;
    if call.LedgerCall? {
      LedgerCallReversals(w.books, call.op, ledger, account, asset);
    } else {
      WalletCallReversals(w, call, ledger, account, asset);
    }
  }

  /** A balance is its client part and what the reverts of the run took back. */
  lemma {:induction false} RunReversals(calls: seq<Call>, ledger: string, account: string, asset: string)
    requires AllUnforged(calls, account, asset)
    ensures BalanceOf(After(calls).books, ledger, account, asset) ==
            ClientBalance(After(calls).books, ledger, account, asset) + Reversed(calls, ledger, account, asset)
  {
    hide BalanceOf, ClientBalance, TakenBack, Unforged;
    if calls == [] {
      NothingReversed(ledger, account, asset);
    } else {
      var front, last := calls[..|calls| - 1], calls[|calls| - 1];
      RunReversals(front, ledger, account, asset);
      StepReversals(After(front), last, ledger, account, asset) by {
        var ops := BooksAreRun(front);
        RunKeepsBooks(ops);
      }
    }
  }

  lemma AllowedIsUnforged(calls: seq<Call>, account: string, asset: string)
    requires AllAllowed(calls) && IsHoldAddress(account)
    ensures AllUnforged(calls, account, asset)
  {
    forall i | 0 <= i < |calls| && calls[i].LedgerCall? ensures Unforged(calls[i].op, account, asset) {
      assert Allowed(After(calls[..i]), calls[i]);
      if calls[i].op.PostOp? {
        AvoidedNet(Entries(calls[i].op.request.postings), account, asset);
      }
    }
  }

  /*** The hold laws ***/

  /** What the reverts of a run took back from the account of a hold. */
  function TakenFromHold(calls: seq<Call>, h: string): int
    requires h in After(calls).holds && After(calls).holds[h].walletId in After(calls).wallets
  {
    var w := After(calls);
    var hold := w.holds[h];
    Reversed(calls, w.wallets[hold.walletId].ledger, HoldAddress(hold.walletId, h), hold.asset)
  }

  lemma SoundHoldBalance(w: World, ops: seq<Op>, h: string)
    requires Sound(w) && w.books == Run(ops) && h in w.holds
    ensures HoldSound(w, h)
    ensures var hold := w.holds[h];
      var l, account := w.wallets[hold.walletId].ledger, HoldAddress(hold.walletId, h);
      && IsHoldAddress(account)
      && HoldBalance(w, h) == BalanceOf(w.books, l, account, hold.asset)
      && ClientBalance(w.books, l, account, hold.asset) == Value(hold.remaining) + Repeated(w.confirms[h])
  {
    hide Print, Run;
    SoundHold(w, h);
    var hold := w.holds[h];
    var l := w.wallets[hold.walletId].ledger;
    assert NetsAt(w, l, hold.walletId, h, hold.asset);
    ReportedIsReplayed(ops, l, HoldAddress(hold.walletId, h), hold.asset);
  }

  /** Hold and ledger agree: the reported balance of a hold's account is its Remaining, plus the amounts that
      repeated an earlier confirm of the same hold, plus what ledger reverts took back from the account. If they took
      back nothing in all, it is never negative, and equal to Remaining exactly when no confirm amount repeats. */
  lemma HoldBalanceLaw(calls: seq<Call>, h: string)
    requires AllAllowed(calls) && h in After(calls).holds
    ensures h in After(calls).confirms && After(calls).holds[h].walletId in After(calls).wallets
    ensures
      var w, taken := After(calls), TakenFromHold(calls, h);
      var remaining := Value(w.holds[h].remaining);
      && HoldBalance(w, h) == remaining + Repeated(w.confirms[h]) + taken
      && (HoldBalance(w, h) == remaining + Repeated(w.confirms[h]) <==> taken == 0)
      && (taken == 0 ==> HoldBalance(w, h) >= 0 && (HoldBalance(w, h) == remaining <==> Distinct(w.confirms[h])))
  {
    hide Sound, Print, IsHoldAddress, HoldBalance, Reversed;
    RunSound(calls);
    var ops := BooksAreRun(calls);
    var w := After(calls);
    SoundHoldBalance(w, ops, h);
    var hold := w.holds[h];
    var l, account := w.wallets[hold.walletId].ledger, HoldAddress(hold.walletId, h);
    AllowedIsUnforged(calls, account, hold.asset);
    RunReversals(calls, l, account, hold.asset);
    RepeatedMeaning(w.confirms[h]);
  }

  /** Bounds and status of a hold in every reachable world. */
  lemma LifecycleLaw(calls: seq<Call>, h: string)
    requires AllAllowed(calls) && h in After(calls).holds
    ensures
      var hold := After(calls).holds[h];
      var amount, remaining := Value(hold.amount), Value(hold.remaining);
      && Parse(hold.remaining).Some?
      && 0 <= remaining <= amount
      && (hold.status == Pending <==> remaining == amount)
      && (hold.status == Partial <==> 0 < remaining < amount)
      && (!hold.Open() <==> remaining == 0)
  {
    RunSound(calls);
    assert HoldSound(After(calls), h);
  }

  /** A successful confirm or void of this hold. */
  predicate Settles(w: World, call: Call, h: string) {
    match call
    case ConfirmCall(k, amount) => k == h && ConfirmHold(w, k, amount).1.Ok?
    case VoidCall(k) => k == h && VoidHold(w, k).1.Ok?
    case _ => false
  }

  /** What one call may do to a hold. */
  ghost predicate HoldChange(w: World, w': World, h: string, settled: bool)
    requires h in w.holds
  {
    && h in w'.holds && w'.holds[h].amount == w.holds[h].amount
    && if settled then w.holds[h].Open() && Value(w'.holds[h].remaining) < Value(w.holds[h].remaining)
       else w'.holds[h] == w.holds[h]
  }

  lemma ConfirmStepChanges(w: World, w': World, l: string, k: string, n: int, h: string)
    requires h in w.holds && k in w.holds && ConfirmStep(w, w', l, k, n)
    ensures HoldChange(w, w', h, k == h)
  {
    ParsePrint(Value(w.holds[k].remaining) - n);
  }

  lemma ConfirmChanges(w: World, k: string, amount: string, h: string)
    requires Sound(w) && h in w.holds
    ensures HoldChange(w, ConfirmHold(w, k, amount).0, h, k == h && ConfirmHold(w, k, amount).1.Ok?)
  {
    ConfirmOutcome(w, k, amount);
    var (w', r) := ConfirmHold(w, k, amount);
    if r.Ok? {
      var hold := w.holds[k];
      ConfirmStepChanges(w, w', w.wallets[hold.walletId].ledger, k, ConfirmAmount(Value(hold.remaining), amount).value,
                         h);
    }
  }

  lemma VoidChanges(w: World, k: string, h: string)
    requires Sound(w) && h in w.holds
    ensures HoldChange(w, VoidHold(w, k).0, h, k == h && VoidHold(w, k).1.Ok?)
  {
    VoidOutcome(w, k);
    assert HoldSound(w, h);
    ParsePrint(0);
    assert Print(0) == "0";
  }

  lemma FundHoldChanges(w: World, named: State, walletId: string, asset: string, amount: string, other: string,
                        h: string)
    requires walletId in w.wallets && h in w.holds && h != HoldId(w.nextID + 1)
    ensures HoldChange(w, FundHold(w, named, walletId, asset, amount, other).0, h, false)
  {
    hide Post, Print, HoldTransfer;
  }

  lemma CreateHoldChanges(w: World, walletId: string, asset: string, amount: string, other: string, h: string)
    requires Sound(w) && h in w.holds
    ensures HoldChange(w, CreateHold(w, walletId, asset, amount, other).0, h, false)
  {
    FreshHold(w);
    if walletId in w.wallets {
      var address := HoldAddress(walletId, HoldId(w.nextID + 1));
      var named := CreateAccount(w.books, w.wallets[walletId].ledger, address, "asset").0;
      FundHoldChanges(w, named, walletId, asset, amount, other, h);
    }
  }

  /** A successful confirm or void finds the hold open and lowers Remaining; no other call changes the hold. */
  lemma HoldChanges(w: World, call: Call, h: string)
    requires Sound(w) && h in w.holds
    ensures HoldChange(w, Step(w, call), h, Settles(w, call, h))
  {
    hide Sound, Post, Print;
    match call {
      case ConfirmCall(k, amount) => ConfirmChanges(w, k, amount, h);
      case VoidCall(k) => VoidChanges(w, k, h);
      case CreateHoldCall(walletId, asset, amount, other) => CreateHoldChanges(w, walletId, asset, amount, other, h);
      case _ =>
    }
  }

  /** Closed holds never reopen: no call changes them. */
  lemma ClosedStaysClosed(w: World, call: Call, h: string)
    requires Sound(w) && h in w.holds && !w.holds[h].Open()
    ensures h in Step(w, call).holds && Step(w, call).holds[h] == w.holds[h]
  {
    HoldChanges(w, call, h);
  }

  /** How many confirm and void calls on a hold have succeeded. */
  function Settlements(calls: seq<Call>, h: string): nat {
    if calls == [] then 0
    else
      var front, last := calls[..|calls| - 1], calls[|calls| - 1];
      Settlements(front, h) + if Settles(After(front), last, h) then 1 else 0
  }

  /** A hold accepts at most Amount successful confirm and void calls over any run. */
  lemma {:induction false} SettlementsBounded(calls: seq<Call>, h: string)
    requires AllAllowed(calls)
    ensures h !in After(calls).holds ==> Settlements(calls, h) == 0
    ensures h in After(calls).holds ==>
      Settlements(calls, h) <= Value(After(calls).holds[h].amount) - Value(After(calls).holds[h].remaining)
  {
    hide Sound, Step;
    if calls != [] {
      var n := |calls| - 1;
      assert forall i :: 0 <= i < n ==> calls[..n][..i] == calls[..i];
      SettlementsBounded(calls[..n], h);
      RunSound(calls[..n]);
      if h in After(calls[..n]).holds {
        HoldChanges(After(calls[..n]), calls[n], h);
      } else if h in After(calls).holds {
        RunSound(calls);
        SoundHold(After(calls), h);
      }
    }
  }
}
