/**
 The append-only ledger of financial entries. Three services post to it; a correction marks an entry
 reversed and appends its exact opposite and a corrected entry, each pointing at the one before.
 An entry's id is its position.
 */
module Ledger {
  import opened Results

  datatype Status = Posted | Reversed | Reversal

  datatype Kind = InvoiceReceivable | CreditNote | DebitNote | AccountsPayable | ApPayment | ReversalOf(kind: Kind)

  datatype Entry = Entry(
    shipment: nat, kind: Kind, debit: int, credit: int, currency: string, reversalOf: Option<nat>, status: Status)

  /** A fresh posting. */
  function Posting(shipment: nat, kind: Kind, debit: int, credit: int, currency: string): Entry {
    Entry(shipment, kind, debit, credit, currency, None, Posted)
  }

  function Corrected(entries: seq<Entry>, id: nat, debit: int, credit: int): seq<Entry>
    requires id < |entries|
  {
    var e := entries[id];
    entries[id := e.(status := Reversed)]
    + [Entry(e.shipment, ReversalOf(e.kind), e.credit, e.debit, e.currency, Some(id), Reversal)]
    + [Entry(e.shipment, e.kind, debit, credit, e.currency, Some(|entries|), Posted)]
  }

  /** `reason` is already stripped of surrounding blanks. */
  function ReverseAndCorrect(entries: seq<Entry>, id: nat, reason: string, debit: int, credit: int): Outcome<seq<Entry>> {
    if |reason| < 3 then Refused("Reversal reason is required")
    else if debit < 0 || credit < 0 then Refused("Financial amounts cannot be negative")
    else if id >= |entries| then Refused("Financial entry not found")
    else if !entries[id].status.Posted? then Refused("Must be POSTED")
    else Done(Corrected(entries, id, debit, credit))
  }

  /**
   A correction is accepted exactly of a POSTED entry, with a reason and amounts that are not negative. It marks
   the entry reversed and appends its opposite and the amounts given, each linked to the one before.
   */
  lemma CorrectedExactly(entries: seq<Entry>, id: nat, reason: string, debit: int, credit: int)
    ensures var outcome := ReverseAndCorrect(entries, id, reason, debit, credit);
            && (outcome.Done? <==>
                  |reason| >= 3 && debit >= 0 && credit >= 0 && id < |entries| && entries[id].status == Posted)
            && (outcome.Done? ==>
                  var e, n, after := entries[id], |entries|, outcome.value;
                  && |after| == n + 2 && (forall i :: 0 <= i < n && i != id ==> after[i] == entries[i])
                  && after[id] == Entry(e.shipment, e.kind, e.debit, e.credit, e.currency, e.reversalOf, Reversed)
                  && after[n] == Entry(e.shipment, ReversalOf(e.kind), e.credit, e.debit, e.currency, Some(id), Reversal)
                  && after[n + 1] == Entry(e.shipment, e.kind, debit, credit, e.currency, Some(n), Posted))
  {
  }

  /** The only ways any service changes the ledger. */
  datatype Effect = Nothing | Post(posting: Entry) | Correct(id: nat, debit: int, credit: int)

  predicate Legal(entries: seq<Entry>, effect: Effect) {
    match effect
    case Nothing => true
    case Post(e) => e.reversalOf.None? && e.status.Posted? && !e.kind.ReversalOf?
    case Correct(id, _, _) => id < |entries| && entries[id].status.Posted?
  }

  function Effected(entries: seq<Entry>, effect: Effect): seq<Entry>
    requires Legal(entries, effect)
  {
    match effect
    case Nothing => entries
    case Post(e) => entries + [e]
    case Correct(id, debit, credit) => Corrected(entries, id, debit, credit)
  }

  // ---------------------------------------------------------------- correction chains

  /** Entry `j` corrects or reverses entry `i`. */
  predicate Follows(entries: seq<Entry>, i: nat, j: nat) {
    i < |entries| && j < |entries| && entries[j].reversalOf == Some(i)
  }

  function Successor(entries: seq<Entry>, i: nat): (r: Option<nat>)
    ensures r.Some? ==> Follows(entries, i, r.value)
    ensures r.None? ==> forall j: nat :: !Follows(entries, i, j)
  {
    SuccessorFrom(entries, i, 0)
  }

  function SuccessorFrom(entries: seq<Entry>, i: nat, from: nat): (r: Option<nat>)
    requires from <= |entries|
    ensures r.Some? ==> Follows(entries, i, r.value)
    ensures r.None? ==> forall j: nat :: from <= j ==> !Follows(entries, i, j)
    decreases |entries| - from
  {
    if from == |entries| then None
    else if Follows(entries, i, from) then Some(from)
    else SuccessorFrom(entries, i, from + 1)
  }

  /** A link goes back to an earlier entry of the other status, on the same shipment and currency. */
  ghost predicate LinkOk(entries: seq<Entry>, j: nat)
    requires j < |entries|
  {
    var e := entries[j];
    match e.reversalOf
    case None => !e.status.Reversal? && !e.kind.ReversalOf?
    case Some(i) =>
      && i < j
      && entries[i].shipment == e.shipment && entries[i].currency == e.currency
      && (if e.status.Reversal? then
            && entries[i].status.Reversed? && e.kind == ReversalOf(entries[i].kind)
            && e.debit == entries[i].credit && e.credit == entries[i].debit
          else entries[i].status.Reversal? && entries[i].kind == ReversalOf(e.kind))
  }

  /** A reversed entry or a reversal has a follower; a posted entry has none. */
  ghost predicate FollowerOk(entries: seq<Entry>, i: nat)
    requires i < |entries|
  {
    entries[i].status.Posted? <==> forall j: nat :: !Follows(entries, i, j)
  }

  ghost predicate Chained(entries: seq<Entry>) {
    && (forall i: nat :: i < |entries| ==> LinkOk(entries, i) && FollowerOk(entries, i))
    && (forall i: nat, j: nat, k: nat :: Follows(entries, i, j) && Follows(entries, i, k) ==> j == k)
  }

  lemma PostingKeepsChains(entries: seq<Entry>, e: Entry)
    requires Chained(entries) && e.reversalOf.None? && e.status.Posted? && !e.kind.ReversalOf?
    ensures Chained(entries + [e])
  {
    var after := entries + [e];
    forall i: nat, j: nat ensures Follows(after, i, j) <==> Follows(entries, i, j) {
      assert j < |entries| && after[j].reversalOf == Some(i) ==> LinkOk(entries, j);
    }
    forall i: nat | i < |after| ensures LinkOk(after, i) && FollowerOk(after, i) {
      if i < |entries| {
        assert LinkOk(entries, i) && FollowerOk(entries, i);
      }
    }
  }

  lemma CorrectionKeepsChains(entries: seq<Entry>, id: nat, debit: int, credit: int)
    requires Chained(entries) && id < |entries| && entries[id].status.Posted?
    ensures Chained(Corrected(entries, id, debit, credit))
  {
    var n, after := |entries|, Corrected(entries, id, debit, credit);
    assert LinkOk(entries, id) && FollowerOk(entries, id);
    forall i: nat, j: nat
      ensures Follows(after, i, j) <==> Follows(entries, i, j) || (i == id && j == n) || (i == n && j == n + 1)
    {
      assert j < n && entries[j].reversalOf == Some(i) ==> LinkOk(entries, j);
    }
    forall i: nat | i < |after| ensures LinkOk(after, i) && FollowerOk(after, i) {
      assert Follows(after, id, n) && Follows(after, n, n + 1);
      if i < n {
        assert LinkOk(entries, i) && FollowerOk(entries, i);
        if !entries[i].status.Posted? {
          var j: nat :| Follows(entries, i, j);
          assert Follows(after, i, j);
        }
      }
    }
  }

  /** Linear, acyclic, alternating chains are kept by every posting and every correction. */
  lemma EffectKeepsChains(entries: seq<Entry>, effect: Effect)
    requires Chained(entries) && Legal(entries, effect)
    ensures Chained(Effected(entries, effect))
  {
    match effect {
      case Nothing =>
      case Post(e) => PostingKeepsChains(entries, e);
      case Correct(id, debit, credit) => CorrectionKeepsChains(entries, id, debit, credit);
    }
  }

  /** The end of the chain an entry belongs to, reached by following corrections. */
  function Tip(entries: seq<Entry>, i: nat): (t: nat)
    requires Chained(entries) && i < |entries|
    ensures i <= t < |entries| && entries[t].status.Posted?
    decreases |entries| - i
  {
    match Successor(entries, i)
    case None => assert FollowerOk(entries, i); i
    case Some(j) => assert LinkOk(entries, j); Tip(entries, j)
  }

  /** The original posting a chain started from. */
  function Root(entries: seq<Entry>, i: nat): (r: nat)
    requires Chained(entries) && i < |entries|
    ensures r <= i && entries[r].reversalOf.None?
    decreases i
  {
    match entries[i].reversalOf
    case None => i
    case Some(p) => assert LinkOk(entries, i); Root(entries, p)
  }

  lemma {:induction false} TipOfRoot(entries: seq<Entry>, i: nat)
    requires Chained(entries) && i < |entries|
    ensures Tip(entries, Root(entries, i)) == Tip(entries, i)
    decreases i
  {
    match entries[i].reversalOf {
      case None =>
      case Some(p) =>
        assert LinkOk(entries, i) && Follows(entries, p, i);
        assert Successor(entries, p) == Some(i);
        TipOfRoot(entries, p);
    }
  }

  lemma {:induction false} RootOfTip(entries: seq<Entry>, i: nat)
    requires Chained(entries) && i < |entries|
    ensures Root(entries, Tip(entries, i)) == Root(entries, i)
    decreases |entries| - i
  {
    match Successor(entries, i) {
      case None =>
      case Some(j) =>
        assert LinkOk(entries, j);
        RootOfTip(entries, j);
    }
  }

  /**
   Chains are linear: every chain has one original posting and one posted end, and the two determine each
   other. So there are exactly as many posted entries as original postings.
   */
  lemma ChainsPairRootsWithPosted(entries: seq<Entry>, i: nat)
    requires Chained(entries) && i < |entries|
    ensures entries[i].reversalOf.None? ==> Root(entries, Tip(entries, i)) == i
    ensures entries[i].status.Posted? ==> Tip(entries, Root(entries, i)) == i
  {
    RootOfTip(entries, i);
    TipOfRoot(entries, i);
    assert FollowerOk(entries, i);
  }

  // ---------------------------------------------------------------- conservation

  datatype Scope = Everything | PostedOnly | Originals | Corrections

  datatype Book = Both | ReceivableBook | PayableBook

  /** Which entries a total ranges over. */
  datatype Query = Query(shipment: nat, currency: string, scope: Scope, book: Book)

  predicate Receivable(kind: Kind) {
    match kind
    case ReversalOf(k) => Receivable(k)
    case _ => kind.InvoiceReceivable? || kind.CreditNote? || kind.DebitNote?
  }

  predicate Payable(kind: Kind) {
    match kind
    case ReversalOf(k) => Payable(k)
    case _ => kind.AccountsPayable? || kind.ApPayment?
  }

  predicate InBook(kind: Kind, book: Book) {
    match book
    case Both => true
    case ReceivableBook => Receivable(kind)
    case PayableBook => Payable(kind)
  }

  predicate InScope(e: Entry, scope: Scope) {
    match scope
    case Everything => true
    case PostedOnly => e.status.Posted?
    case Originals => e.reversalOf.None?
    case Corrections => e.reversalOf.Some?
  }

  function Share(e: Entry, q: Query): int {
    if e.shipment == q.shipment && e.currency == q.currency && InScope(e, q.scope) && InBook(e.kind, q.book)
    then e.debit - e.credit else 0
  }

  /** Debit minus credit. */
  function Net(entries: seq<Entry>, q: Query): int {
    if entries == [] then 0 else Net(entries[..|entries| - 1], q) + Share(entries[|entries| - 1], q)
  }

  lemma NetAppend(entries: seq<Entry>, e: Entry, q: Query)
    ensures Net(entries + [e], q) == Net(entries, q) + Share(e, q)
  {
    assert (entries + [e])[..|entries|] == entries;
  }

  lemma {:induction false} NetUpdate(entries: seq<Entry>, i: nat, e: Entry, q: Query)
    requires i < |entries|
    ensures Net(entries[i := e], q) == Net(entries, q) - Share(entries[i], q) + Share(e, q)
    decreases |entries|
  {
    var n := |entries| - 1;
    if i == n {
      assert entries[i := e][..n] == entries[..n];
    } else {
      assert entries[i := e][..n] == entries[..n][i := e];
      NetUpdate(entries[..n], i, e, q);
    }
  }

  predicate Covers(q: Query, e: Entry) {
    e.shipment == q.shipment && e.currency == q.currency && InBook(e.kind, q.book)
  }

  /** What a correction changes in a total: nothing originally posted, elsewhere new minus old net. */
  function Moved(e: Entry, debit: int, credit: int, q: Query): int {
    if Covers(q, e) && !q.scope.Originals? then (debit - credit) - (e.debit - e.credit) else 0
  }

  lemma MovedIsShares(e: Entry, id: nat, n: nat, debit: int, credit: int, q: Query)
    requires e.status.Posted?
    ensures Share(e.(status := Reversed), q) - Share(e, q)
            + Share(Entry(e.shipment, ReversalOf(e.kind), e.credit, e.debit, e.currency, Some(id), Reversal), q)
            + Share(Entry(e.shipment, e.kind, debit, credit, e.currency, Some(n), Posted), q)
            == Moved(e, debit, credit, q)
  {
    ReversalStaysInBook(e.kind, q.book);
  }

  lemma ReversalStaysInBook(kind: Kind, book: Book)
    ensures InBook(ReversalOf(kind), book) <==> InBook(kind, book)
  {
  }

  /** A correction moves no original amount; it changes the balances that cover it by exactly new minus old. */
  lemma CorrectionMovesBalance(entries: seq<Entry>, id: nat, debit: int, credit: int, q: Query)
    requires id < |entries| && entries[id].status.Posted?
    ensures Net(Corrected(entries, id, debit, credit), q) == Net(entries, q) + Moved(entries[id], debit, credit, q)
  {
    var e := entries[id];
    var marked := entries[id := e.(status := Reversed)];
    var reversal := Entry(e.shipment, ReversalOf(e.kind), e.credit, e.debit, e.currency, Some(id), Reversal);
    var corrected := Entry(e.shipment, e.kind, debit, credit, e.currency, Some(|entries|), Posted);
    NetUpdate(entries, id, e.(status := Reversed), q);
    NetAppend(marked, reversal, q);
    NetAppend(marked + [reversal], corrected, q);
    MovedIsShares(e, id, |entries|, debit, credit, q);
  }

  /** Per shipment and currency, posted entries alone carry the whole balance. */
  ghost predicate Balanced(entries: seq<Entry>) {
    forall q: Query :: q.scope.Everything? ==> Net(entries, q) == Net(entries, q.(scope := PostedOnly))
  }

  lemma EffectMovesBoth(entries: seq<Entry>, effect: Effect, q: Query)
    requires Legal(entries, effect) && q.scope.Everything?
    ensures Net(Effected(entries, effect), q) - Net(entries, q)
            == Net(Effected(entries, effect), q.(scope := PostedOnly)) - Net(entries, q.(scope := PostedOnly))
  {
    match effect {
      case Nothing =>
      case Post(e) =>
        NetAppend(entries, e, q);
        NetAppend(entries, e, q.(scope := PostedOnly));
      case Correct(id, debit, credit) =>
        CorrectionMovesBalance(entries, id, debit, credit, q);
        CorrectionMovesBalance(entries, id, debit, credit, q.(scope := PostedOnly));
    }
  }

  lemma EffectKeepsBalance(entries: seq<Entry>, effect: Effect)
    requires Balanced(entries) && Legal(entries, effect)
    ensures Balanced(Effected(entries, effect))
  {
    forall q: Query | q.scope.Everything?
      ensures Net(Effected(entries, effect), q) == Net(Effected(entries, effect), q.(scope := PostedOnly))
    {
      EffectMovesBoth(entries, effect, q);
    }
  }

  /** The balance splits into what was originally posted and what corrections changed. */
  lemma {:induction false} NetSplits(entries: seq<Entry>, q: Query)
    ensures Net(entries, q.(scope := Everything)) == Net(entries, q.(scope := Originals)) + Net(entries, q.(scope := Corrections))
  {
    if entries != [] {
      NetSplits(entries[..|entries| - 1], q);
    }
  }
}
