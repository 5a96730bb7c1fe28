/** backend/internal/monetization web_purchase.go, refunds.go and the invoice writers of
    invoicing.go: credits bought on the web are granted once per payment, and taken back,
    as far as they are unspent, once per refund or chargeback. */
module Purchases {
  import opened Prelude
  import opened Text
  import opened Wallets
  import Pricing

  datatype Status = Verified | Refunded

  // What a payment is for, once checked against the quote or the pack.
  datatype Order = Order(user: UserId, product: string, payment: string, intent: string, credits: int, amount: int)

  // A row of web_purchases. Rows are kept in the order they were created.
  datatype WebPurchase = WebPurchase(id: string, order: Order, status: Status)

  datatype Invoice = Invoice(user: UserId, rate: int, net: int, tax: int, gross: int, refunded: bool)

  datatype PurchaseError =
    | InvalidProvider | InvalidReceipt | UnknownProduct | ProductMismatch | InvalidCustomCredits
    | VerifierUnavailable | PurchaseNotFound | PaymentsRefundFailed | WalletRefused(error: WalletError) | StorageFailed

  // Every table a purchase or a refund touches, and the balance found at each refund.
  datatype Books = Books(
    tables: Tables, purchases: seq<WebPurchase>, invoices: map<string, Invoice>, atRefund: map<string, int>)

  datatype GrantResult = GrantResult(balanceAfter: int, credits: int, purchase: string, already: bool)
  datatype RefundResult = RefundResult(purchase: string, reversed: int, balanceAfter: int, already: bool)

  datatype Grant = Grant(books: Books, result: Result<GrantResult, PurchaseError>)
  datatype Reversal = Reversal(books: Books, result: Result<RefundResult, PurchaseError>)

  // ---------------------------------------------------------------- what a payment may buy

  datatype Pack = Pack(credits: int, amount: int)
  datatype Quote = Quote(user: UserId, product: string, base: int, bonus: int, credits: int, amount: int)

  // Frozen quotes by payment intent, and the active packs by provider and product.
  datatype Shop = Shop(quotes: map<string, Quote>, packs: map<(string, string), Pack>)

  // The callback of the payments service. A nil UUID is None, a nil intent "".
  datatype GrantInput = GrantInput(
    user: Option<UserId>, credits: int, product: string, provider: string, payment: string, intent: string)

  const ProductCustom := "credits_custom"
  const BaselineProduct := "credits_100"

  // unicode.ToLower, as far as it can end in an ASCII letter
  function LowerChar(c: char): char {
    if 'A' <= c <= 'Z' then (c as int + 32) as char
    else if c == '\U{0130}' then 'i'
    else if c == '\U{212A}' then 'k'
    else c
  }

  function ToLower(s: string): string {
    seq(|s|, i requires 0 <= i < |s| => LowerChar(s[i]))
  }

  function Provider(raw: string): string { ToLower(TrimSpace(raw)) }

  predicate IsWebProvider(provider: string) { provider == "iyzico" }

  function ResolveGrant(shop: Shop, user: UserId, provider: string, product: string, intent: string, credits: int)
    : Result<(int, int), PurchaseError>
  {
    if intent in shop.quotes then
      var q := shop.quotes[intent];
      if q.user != user then Err(InvalidReceipt)
      else if q.product != product || q.credits != credits then Err(ProductMismatch)
      else Ok((q.credits, q.amount))
    else if product == ProductCustom || (provider, product) !in shop.packs then Err(UnknownProduct)
    else
      var p := shop.packs[(provider, product)];
      if p.credits != credits then Err(ProductMismatch) else Ok((p.credits, p.amount))
  }

  // The checks made before the transaction, in their order.
  function Checked(shop: Shop, i: GrantInput): (r: Result<Order, PurchaseError>)
    ensures r.Ok? ==> OrderStands(r.value)
  {
    var product, payment := TrimSpace(i.product), TrimSpace(i.payment);
    TrimSpaceTrims(i.payment);
    if !IsWebProvider(Provider(i.provider)) then Err(InvalidProvider)
    else if i.user.None? || product == "" || payment == "" || i.intent == "" then Err(InvalidReceipt)
    else if i.credits <= 0 then Err(UnknownProduct)
    else match ResolveGrant(shop, i.user.value, Provider(i.provider), product, i.intent, i.credits)
      case Err(e) => Err(e)
      case Ok((credits, amount)) =>
        Ok(Order(i.user.value, product, payment, i.intent, credits, if amount <= 0 then 1 else amount))
  }

  predicate OrderStands(o: Order) {
    o.payment != "" && Trimmed(o.payment) && o.credits > 0 && o.amount > 0
  }

  // Which provider names reach the web provider: its letters in either case, blanks around them aside.
  lemma WebProviderSpelling(raw: string)
    ensures IsWebProvider(Provider(raw)) <==>
      var s := TrimSpace(raw);
      && |s| == 6
      && s[0] in ['i', 'I', '\U{0130}'] && s[1] in ['y', 'Y'] && s[2] in ['z', 'Z']
      && s[3] in ['i', 'I', '\U{0130}'] && s[4] in ['c', 'C'] && s[5] in ['o', 'O']
  {
    var s := TrimSpace(raw);
    assert |Provider(raw)| == |s|;
    assert forall k :: 0 <= k < |s| ==> Provider(raw)[k] == LowerChar(s[k]);
    assert IsWebProvider(Provider(raw)) <==> |s| == 6 && forall k :: 0 <= k < 6 ==> LowerChar(s[k]) == "iyzico"[k];
    if |s| == 6 { LowersTo(s); }
  }

  lemma LowersTo(s: string)
    requires |s| == 6
    ensures (forall k :: 0 <= k < 6 ==> LowerChar(s[k]) == "iyzico"[k]) <==>
      && LowerChar(s[0]) == 'i' && LowerChar(s[1]) == 'y' && LowerChar(s[2]) == 'z'
      && LowerChar(s[3]) == 'i' && LowerChar(s[4]) == 'c' && LowerChar(s[5]) == 'o'
  {
    var word := "iyzico";
    assert word[0] == 'i' && word[1] == 'y' && word[2] == 'z' && word[3] == 'i' && word[4] == 'c' && word[5] == 'o';
  }

  // A delivery without anything missing.
  predicate Complete(i: GrantInput) {
    && IsWebProvider(Provider(i.provider))
    && i.user.Some? && TrimSpace(i.product) != "" && TrimSpace(i.payment) != "" && i.intent != ""
    && i.credits > 0
  }

  // An unquoted delivery is accepted exactly when it is complete, is not for a custom amount, and
  // claims exactly the credits of an active pack; the order is then for the pack's credits and
  // price, whatever else the payments service says.
  lemma UnquotedGrantIff(shop: Shop, i: GrantInput)
    requires i.intent !in shop.quotes
    ensures
      var key := ("iyzico", TrimSpace(i.product));
      && (Checked(shop, i).Ok? <==>
            && Complete(i) && TrimSpace(i.product) != "credits_custom"
            && key in shop.packs && i.credits == shop.packs[key].credits)
      && (Checked(shop, i).Ok? ==>
            Checked(shop, i).value == Order(i.user.value, TrimSpace(i.product), TrimSpace(i.payment), i.intent,
              shop.packs[key].credits, if shop.packs[key].amount <= 0 then 1 else shop.packs[key].amount))
  {
    hide Provider, TrimSpace;
  }

  // Why a delivery is refused.
  lemma RefusedDelivery(shop: Shop, i: GrantInput)
    ensures
      var r, product := Checked(shop, i), TrimSpace(i.product);
      && (r == Err(InvalidProvider) <==> !IsWebProvider(Provider(i.provider)))
      && (IsWebProvider(Provider(i.provider)) && !Complete(i) ==>
            r == Err(if i.user.None? || product == "" || TrimSpace(i.payment) == "" || i.intent == ""
                     then InvalidReceipt else UnknownProduct))
      && (Complete(i) && i.intent in shop.quotes ==>
            var q := shop.quotes[i.intent];
            && (q.user != i.user.value ==> r == Err(InvalidReceipt))
            && (q.user == i.user.value && (q.product != product || q.credits != i.credits) ==> r == Err(ProductMismatch)))
      && (Complete(i) && i.intent !in shop.quotes ==>
            && (product == "credits_custom" || ("iyzico", product) !in shop.packs ==> r == Err(UnknownProduct))
            && (product != "credits_custom" && ("iyzico", product) in shop.packs
                && shop.packs[("iyzico", product)].credits != i.credits
                ==> r == Err(ProductMismatch)))
  {
    hide Provider, TrimSpace;
  }

  // ---------------------------------------------------------------- rows

  function ByPayment(ps: seq<WebPurchase>, payment: string): Option<nat> {
    First(ps, (p: WebPurchase) => p.order.payment == payment)
  }

  function ById(ps: seq<WebPurchase>, id: string): Option<nat> {
    First(ps, (p: WebPurchase) => p.id == id)
  }

  // loadWebPurchaseByIntent: the oldest row of the intent or of the payment.
  function ByIntent(ps: seq<WebPurchase>, intent: string, payment: string): Option<nat> {
    First(ps, (p: WebPurchase) => p.order.intent == intent || (payment != "" && p.order.payment == payment))
  }

  // A chargeback concerns the oldest purchase that has its intent or, when one is given, its
  // payment id, and is unknown exactly when there is none.
  lemma OldestOfIntent(ps: seq<WebPurchase>, intent: string, payment: string)
    ensures
      var k := ByIntent(ps, intent, payment);
      && (k.Some? ==>
            && k.value < |ps|
            && (ps[k.value].order.intent == intent || (payment != "" && ps[k.value].order.payment == payment))
            && forall i :: 0 <= i < k.value ==>
                 ps[i].order.intent != intent && (payment == "" || ps[i].order.payment != payment))
      && (k.None? ==> forall i :: 0 <= i < |ps| ==>
            ps[i].order.intent != intent && (payment == "" || ps[i].order.payment != payment))
  {
  }

  function CreditInput(o: Order, id: string): ApplyInput {
    ApplyInput(o.user, o.credits, Reason.Purchase, "web_purchase", id, o.payment)
  }

  function RefundKey(payment: string): string { "refund:" + payment }

  function DebitInput(o: Order, id: string, amount: int): ApplyInput {
    ApplyInput(o.user, amount, Refund, "web_purchase", id, RefundKey(o.payment))
  }

  function NewInvoice(user: UserId, gross: int, rate: int): Invoice {
    var bps := if rate < 0 then 2000 else rate;
    var s := Pricing.SplitKDV(if gross <= 0 then 1 else gross, bps);
    Invoice(user, bps, s.net, s.tax, s.gross, false)
  }

  // Unspent credits only.
  function Reversible(o: Order, balance: int): int {
    if balance < o.credits then balance else o.credits
  }

  // ---------------------------------------------------------------- one transaction each

  // A payment delivered once more finds its row and replays the grant; a new one gets a row, the
  // grant and an invoice. A refused grant leaves nothing behind.
  function Deliver(b: Books, o: Order, id: string, rate: int): Grant {
    match ByPayment(b.purchases, o.payment)
    case Some(k) =>
      var p := b.purchases[k];
      if p.order.user != o.user then Grant(b, Err(InvalidReceipt))
      else
        var posting := PostGrant(b.tables, CreditInput(p.order, p.id));
        if posting.result.Err? then Grant(b, Err(WalletRefused(posting.result.error)))
        else Grant(b.(tables := posting.tables), Ok(GrantResult(posting.result.value, p.order.credits, p.id, true)))
    case None =>
      if ById(b.purchases, id).Some? then Grant(b, Err(StorageFailed))
      else
        var posting := PostGrant(b.tables, CreditInput(o, id));
        if posting.result.Err? then Grant(b, Err(WalletRefused(posting.result.error)))
        else
          Grant(b.(tables := posting.tables,
                   purchases := b.purchases + [WebPurchase(id, o, Verified)],
                   invoices := WithInvoice(b.invoices, id, NewInvoice(o.user, o.amount, rate))),
                Ok(GrantResult(posting.result.value, o.credits, id, false)))
  }

  // ON CONFLICT (source_type, source_id) DO NOTHING
  function WithInvoice(invoices: map<string, Invoice>, id: string, inv: Invoice): map<string, Invoice> {
    if id in invoices then invoices else invoices[id := inv]
  }

  function InvoiceRefunded(invoices: map<string, Invoice>, id: string): map<string, Invoice> {
    if id in invoices then invoices[id := invoices[id].(refunded := true)] else invoices
  }

  function MarkRefunded(b: Books, k: nat, tables: Tables, balance: int): Books
    requires k < |b.purchases|
  {
    var p := b.purchases[k];
    Books(tables, b.purchases[k := p.(status := Refunded)],
          InvoiceRefunded(b.invoices, p.id), b.atRefund[p.id := balance])
  }

  // p is the row as the caller read it, possibly before someone else refunded it.
  function Clawback(b: Books, p: WebPurchase): Reversal {
    match ById(b.purchases, p.id)
    case None => Reversal(b, Err(PurchaseNotFound))
    case Some(k) =>
      var balance := BalanceOf(b.tables, p.order.user);
      var amount := Reversible(p.order, balance);
      if b.purchases[k].status == Refunded then Reversal(b, Ok(RefundResult(p.id, 0, balance, true)))
      else if amount <= 0 then
        Reversal(MarkRefunded(b, k, b.tables, balance), Ok(RefundResult(p.id, amount, balance, false)))
      else
        var posting := PostSpend(b.tables, DebitInput(p.order, p.id, amount));
        if posting.result.Err? then Reversal(b, Err(WalletRefused(posting.result.error)))
        else Reversal(MarkRefunded(b, k, posting.tables, balance),
                      Ok(RefundResult(p.id, amount, posting.result.value, false)))
  }

  // ---------------------------------------------------------------- what the books say

  ghost predicate PurchasesStand(ps: seq<WebPurchase>) {
    && (forall i :: 0 <= i < |ps| ==> OrderStands(ps[i].order))
    && (forall i, j :: 0 <= i < j < |ps| ==> ps[i].id != ps[j].id && ps[i].order.payment != ps[j].order.payment)
  }

  predicate IsGrantRow(row: LedgerRow, o: Order) {
    row.key == o.payment && row.user == o.user && row.delta == o.credits && row.reason == Reason.Purchase
  }

  // The debit of a refund that found this balance.
  predicate IsRefundRow(row: LedgerRow, o: Order, balance: int) {
    && row.key == RefundKey(o.payment) && row.user == o.user && row.reason == Refund
    && row.delta == -Reversible(o, balance) < 0
    && row.balanceAfter == balance + row.delta
  }

  ghost predicate GrantsStand(ledger: seq<LedgerRow>, ps: seq<WebPurchase>) {
    forall i :: 0 <= i < |ps| ==> Granted(ledger, ps[i].order)
  }

  ghost predicate Granted(ledger: seq<LedgerRow>, o: Order) {
    exists row :: row in ledger && IsGrantRow(row, o)
  }

  predicate Known(ps: seq<WebPurchase>, id: string) {
    exists i :: 0 <= i < |ps| && ps[i].id == id
  }

  // Each purchase has an invoice for its amount, refunded with it, and there is no other.
  ghost predicate InvoicesStand(invoices: map<string, Invoice>, ps: seq<WebPurchase>) {
    && (forall id :: id in invoices ==> Known(ps, id))
    && (forall i :: 0 <= i < |ps| ==> InvoiceStands(invoices, ps[i]))
  }

  predicate InvoiceStands(invoices: map<string, Invoice>, p: WebPurchase) {
    && p.id in invoices
    && invoices[p.id].user == p.order.user
    && invoices[p.id].gross == p.order.amount == invoices[p.id].net + invoices[p.id].tax
    && (invoices[p.id].refunded <==> p.status == Refunded)
  }

  // A refunded purchase remembers the balance it found, which was taken as far as granted.
  ghost predicate RefundStands(ledger: seq<LedgerRow>, atRefund: map<string, int>, p: WebPurchase) {
    && (p.status == Refunded <==> p.id in atRefund)
    && (p.id in atRefund ==>
          && atRefund[p.id] >= 0
          && (atRefund[p.id] > 0 ==> exists row :: row in ledger && IsRefundRow(row, p.order, atRefund[p.id])))
  }

  // A debit marked as a refund is the one of a refunded purchase.
  ghost predicate RefundRowStands(row: LedgerRow, atRefund: map<string, int>, ps: seq<WebPurchase>) {
    row.reason == Refund ==>
      exists i :: 0 <= i < |ps| && ps[i].id in atRefund && IsRefundRow(row, ps[i].order, atRefund[ps[i].id])
  }

  ghost predicate RefundsStand(ledger: seq<LedgerRow>, atRefund: map<string, int>, ps: seq<WebPurchase>) {
    && (forall id :: id in atRefund ==> Known(ps, id))
    && (forall i :: 0 <= i < |ps| ==> RefundStands(ledger, atRefund, ps[i]))
    && (forall row :: row in ledger ==> RefundRowStands(row, atRefund, ps))
  }

  ghost predicate BooksStand(b: Books) {
    && Wallets.Valid(b.tables)
    && PurchasesStand(b.purchases)
    && GrantsStand(b.tables.ledger, b.purchases)
    && InvoicesStand(b.invoices, b.purchases)
    && RefundsStand(b.tables.ledger, b.atRefund, b.purchases)
  }

  const NoBooks := Books(Empty, [], map[], map[])

  // ---------------------------------------------------------------- wallet postings

  // What a posting can do to the ledger.
  lemma PostShape(t: Tables, i: ApplyInput, delta: int)
    requires Wallets.Valid(t)
    ensures
      var t' := Post(t, i, delta).tables;
      && Wallets.Valid(t')
      && (t'.ledger == t.ledger
          || exists row :: t'.ledger == t.ledger + [row] && row.reason == i.reason)
  {
    hide Wallets.Valid, RowByKey, TrimSpace, BalanceOf;
    PostKeepsBooks(t, i, delta);
    if Post(t, i, delta).tables.ledger != t.ledger {
      var row := LedgerRow(i.user, delta, BalanceOf(t, i.user) + delta, i.reason, i.refType, i.refId, TrimSpace(i.key));
      assert Post(t, i, delta).tables.ledger == t.ledger + [row];
    }
  }

  lemma TrimmedIsFixed(s: string)
    requires Trimmed(s)
    ensures TrimSpace(s) == s
  {
  }

  lemma RefundKeyTrimmed(payment: string)
    requires payment != "" && Trimmed(payment)
    ensures TrimSpace(RefundKey(payment)) == RefundKey(payment)
  {
    assert RefundKey(payment)[|RefundKey(payment)| - 1] == payment[|payment| - 1];
    assert RefundKey(payment)[0] == 'r';
    TrimmedIsFixed(RefundKey(payment));
  }

  // More rows, none of them a refund, disturb no purchase and no refund.
  lemma ForeignRowsKeepBooks(b: Books, tables: Tables)
    requires BooksStand(b) && Wallets.Valid(tables)
    requires tables.ledger == b.tables.ledger
             || exists row :: tables.ledger == b.tables.ledger + [row] && row.reason != Refund
    ensures BooksStand(b.(tables := tables))
  {
    hide Wallets.Valid, IsGrantRow, IsRefundRow;
    var l, l' := b.tables.ledger, tables.ledger;
    forall row | row in l ensures row in l' {
    }
    forall row | row in l' && row.reason == Refund ensures row in l {
    }
    forall row | row in l' ensures RefundRowStands(row, b.atRefund, b.purchases) {
      assert row in l ==> RefundRowStands(row, b.atRefund, b.purchases);
    }
    forall i | 0 <= i < |b.purchases| ensures RefundStands(l', b.atRefund, b.purchases[i]) {
      assert RefundStands(l, b.atRefund, b.purchases[i]);
    }
    forall i | 0 <= i < |b.purchases| ensures Granted(l', b.purchases[i].order) {
      assert Granted(l, b.purchases[i].order);
    }
  }

  // ---------------------------------------------------------------- every transaction keeps the books

  lemma {:induction false} RowIsFound(ps: seq<WebPurchase>, k: nat)
    requires PurchasesStand(ps) && k < |ps|
    ensures ByPayment(ps, ps[k].order.payment) == Some(k) && ById(ps, ps[k].id) == Some(k)
  {
    var p, q := ByPayment(ps, ps[k].order.payment), ById(ps, ps[k].id);
    assert p.Some? && q.Some?;
  }

  // Delivering a payment again, refunded since or not, changes nothing. Its buyer is told what
  // the first delivery granted; anyone else is refused.
  lemma RedeliveryGrantsNothing(b: Books, o: Order, id: string, rate: int, k: nat)
    requires BooksStand(b) && k < |b.purchases| && b.purchases[k].order.payment == o.payment
    ensures Deliver(b, o, id, rate).books == b
    ensures b.purchases[k].order.user != o.user ==> Deliver(b, o, id, rate).result == Err(InvalidReceipt)
    ensures b.purchases[k].order.user == o.user ==>
      exists row :: row in b.tables.ledger && IsGrantRow(row, b.purchases[k].order)
        && Deliver(b, o, id, rate).result
           == Ok(GrantResult(row.balanceAfter, b.purchases[k].order.credits, b.purchases[k].id, true))
  {
    hide Wallets.Valid, Post, IsGrantRow, PurchasesStand, InvoicesStand, RefundsStand;
    RowIsFound(b.purchases, k);
    var n := GrantReplays(b, k);
  }

  lemma GrantReplays(b: Books, k: nat) returns (n: nat)
    requires BooksStand(b) && k < |b.purchases|
    ensures n < |b.tables.ledger| && IsGrantRow(b.tables.ledger[n], b.purchases[k].order)
    ensures PostGrant(b.tables, CreditInput(b.purchases[k].order, b.purchases[k].id))
            == Posting(b.tables, Ok(b.tables.ledger[n].balanceAfter))
  {
    hide Wallets.RowStands, InvoicesStand, RefundsStand, Post;
    var p := b.purchases[k];
    assert Granted(b.tables.ledger, p.order);
    var row :| row in b.tables.ledger && IsGrantRow(row, p.order);
    n :| 0 <= n < |b.tables.ledger| && b.tables.ledger[n] == row;
    TrimmedIsFixed(p.order.payment);
    BalanceIsSum(b.tables, p.order.user);
    RowAnswersRequest(b.tables, CreditInput(p.order, p.id), p.order.credits, n);
  }

  lemma NewPurchaseKeepsBooks(b: Books, o: Order, id: string, rate: int)
    requires BooksStand(b) && OrderStands(o)
    requires forall i :: 0 <= i < |b.purchases| ==> b.purchases[i].id != id && b.purchases[i].order.payment != o.payment
    requires Granted(b.tables.ledger, o)
    ensures BooksStand(b.(purchases := b.purchases + [WebPurchase(id, o, Verified)],
                          invoices := WithInvoice(b.invoices, id, NewInvoice(o.user, o.amount, rate))))
  {
    hide Wallets.Valid, IsGrantRow, IsRefundRow, OrderStands, InvoicesStand, NewInvoice, WithInvoice, RefundsStand;
    var ps, ps' := b.purchases, b.purchases + [WebPurchase(id, o, Verified)];
    assert forall i :: 0 <= i < |ps| ==> ps'[i] == ps[i];
    forall i | 0 <= i < |ps'| ensures Granted(b.tables.ledger, ps'[i].order) {
      assert i < |ps| ==> Granted(b.tables.ledger, ps[i].order);
    }
    NewPurchaseKeepsInvoices(b, o, id, rate);
    NewPurchaseKeepsRefunds(b, o, id);
  }

  // A payment not seen before pays out exactly when no other ledger row already uses its id as
  // its key. A row of another channel that asked for the same is taken for a replay: the
  // purchase is recorded, but its credits are not added.
  lemma NewDeliveryPaysIff(b: Books, o: Order, id: string, rate: int)
    requires BooksStand(b) && OrderStands(o)
    requires ByPayment(b.purchases, o.payment).None? && ById(b.purchases, id).None?
    ensures
      var after := Deliver(b, o, id, rate);
      var found := RowByKey(b.tables.ledger, o.payment);
      && (BalanceOf(after.books.tables, o.user) == BalanceOf(b.tables, o.user) + o.credits <==> found.None?)
      && (after.result.Ok? <==> found.None? || IsGrantRow(found.value, o))
      && (after.result.Err? ==> after.books == b)
      && (after.result.Ok? ==>
            && after.books.purchases == b.purchases + [WebPurchase(id, o, Verified)]
            && after.result.value.credits == o.credits && after.result.value.purchase == id && !after.result.value.already
            && (found.None? ==> after.result.value.balanceAfter == BalanceOf(after.books.tables, o.user)))
  {
    hide GrantsStand, InvoicesStand, RefundsStand, PurchasesStand, NewInvoice, RowByKey;
    TrimmedIsFixed(o.payment);
    BalanceIsSum(b.tables, o.user);
  }

  lemma KnownInLonger(ps: seq<WebPurchase>, p: WebPurchase)
    ensures Known(ps + [p], p.id)
    ensures forall id :: Known(ps, id) ==> Known(ps + [p], id)
  {
    assert (ps + [p])[|ps|] == p;
    forall id | Known(ps, id) ensures Known(ps + [p], id) {
      var i :| 0 <= i < |ps| && ps[i].id == id;
      assert (ps + [p])[i] == ps[i];
    }
  }

  lemma NewPurchaseKeepsInvoices(b: Books, o: Order, id: string, rate: int)
    requires InvoicesStand(b.invoices, b.purchases) && OrderStands(o) && !Known(b.purchases, id)
    ensures InvoicesStand(WithInvoice(b.invoices, id, NewInvoice(o.user, o.amount, rate)),
                          b.purchases + [WebPurchase(id, o, Verified)])
  {
    hide OrderStands, NewInvoice;
    var p := WebPurchase(id, o, Verified);
    var ps' := b.purchases + [p];
    KnownInLonger(b.purchases, p);
    InvoiceAddsUp(id, o, rate);
    assert id !in b.invoices;
    forall i | 0 <= i < |ps'|
      ensures InvoiceStands(b.invoices[id := NewInvoice(o.user, o.amount, rate)], ps'[i])
    {
      assert i < |b.purchases| ==> InvoiceStands(b.invoices, b.purchases[i]) && b.purchases[i].id != id;
    }
  }

  lemma NewPurchaseKeepsRefunds(b: Books, o: Order, id: string)
    requires RefundsStand(b.tables.ledger, b.atRefund, b.purchases) && !Known(b.purchases, id)
    ensures RefundsStand(b.tables.ledger, b.atRefund, b.purchases + [WebPurchase(id, o, Verified)])
  {
    hide IsRefundRow;
    var ps, ps' := b.purchases, b.purchases + [WebPurchase(id, o, Verified)];
    KnownInLonger(ps, WebPurchase(id, o, Verified));
    assert forall i :: 0 <= i < |ps| ==> ps'[i] == ps[i];
    forall i | 0 <= i < |ps'| ensures RefundStands(b.tables.ledger, b.atRefund, ps'[i]) {
      assert i < |ps| ==> RefundStands(b.tables.ledger, b.atRefund, ps[i]);
    }
    forall row | row in b.tables.ledger ensures RefundRowStands(row, b.atRefund, ps') {
      assert RefundRowStands(row, b.atRefund, ps);
    }
  }

  lemma InvoiceAddsUp(id: string, o: Order, rate: int)
    requires OrderStands(o)
    ensures InvoiceStands(map[id := NewInvoice(o.user, o.amount, rate)], WebPurchase(id, o, Verified))
  {
    hide Pricing.IsFloor, Pricing.IsCeil, Pricing.SplitKDV;
    Pricing.SplitIsExact(o.amount, if rate < 0 then 2000 else rate);
  }

  lemma DeliverKeepsBooks(b: Books, o: Order, id: string, rate: int)
    requires BooksStand(b) && OrderStands(o)
    ensures BooksStand(Deliver(b, o, id, rate).books)
  {
    hide Wallets.Valid, IsRefundRow, InvoicesStand, RefundsStand, GrantsStand, Post;
    match ByPayment(b.purchases, o.payment)
    case Some(k) => RedeliveryGrantsNothing(b, o, id, rate, k);
    case None =>
      if Deliver(b, o, id, rate).result.Ok? {
        var i := CreditInput(o, id);
        PostShape(b.tables, i, o.credits);
        TrimmedIsFixed(o.payment);
        var k := SuccessLeavesRow(b.tables, i, o.credits);
        var tables := PostGrant(b.tables, i).tables;
        ForeignRowsKeepBooks(b, tables);
        assert IsGrantRow(tables.ledger[k], o);
        NewPurchaseKeepsBooks(b.(tables := tables), o, id, rate);
      }
  }

  // A purchase that nothing was taken for has no refund row.
  lemma NothingTaken(b: Books, k: nat, row: LedgerRow)
    requires BooksStand(b) && k < |b.purchases|
    requires b.purchases[k].id in b.atRefund ==> b.atRefund[b.purchases[k].id] == 0
    requires row in b.tables.ledger && row.reason == Refund
    ensures row.key != RefundKey(b.purchases[k].order.payment)
  {
    hide Wallets.Valid, GrantsStand, InvoicesStand;
    assert RefundRowStands(row, b.atRefund, b.purchases);
    var i :| 0 <= i < |b.purchases| && b.purchases[i].id in b.atRefund
             && IsRefundRow(row, b.purchases[i].order, b.atRefund[b.purchases[i].id]);
    assert RefundStands(b.tables.ledger, b.atRefund, b.purchases[i]);
    assert i != k;
    assert RefundKey(b.purchases[i].order.payment)[7..] == b.purchases[i].order.payment;
    assert RefundKey(b.purchases[k].order.payment)[7..] == b.purchases[k].order.payment;
  }

  // The debit of a refund goes through exactly when nobody took its key, and then appends its row.
  lemma DebitPosts(b: Books, k: nat)
    requires BooksStand(b) && k < |b.purchases| && b.purchases[k].status == Verified
    requires BalanceOf(b.tables, b.purchases[k].order.user) > 0
    ensures
      var p := b.purchases[k];
      var balance := BalanceOf(b.tables, p.order.user);
      var posting := PostSpend(b.tables, DebitInput(p.order, p.id, Reversible(p.order, balance)));
      if RowByKey(b.tables.ledger, RefundKey(p.order.payment)).Some? then posting == Posting(b.tables, Err(IdempotencyConflict))
      else
        && Wallets.Valid(posting.tables)
        && posting.result == Ok(balance - Reversible(p.order, balance))
        && exists row :: posting.tables.ledger == b.tables.ledger + [row] && IsRefundRow(row, p.order, balance)
  {
    hide Wallets.Valid, GrantsStand, InvoicesStand, RefundsStand, Trimmed, Post, RowByKey;
    var p := b.purchases[k];
    var found := RowByKey(b.tables.ledger, RefundKey(p.order.payment));
    if found.Some? {
      assert p.id !in b.atRefund by { NotRefundedYet(b, k); }
      assert found.value.reason != Refund by {
        if found.value.reason == Refund { NothingTaken(b, k, found.value); }
      }
    }
    DebitWithKey(b.tables, p.order, p.id);
  }

  lemma NotRefundedYet(b: Books, k: nat)
    requires BooksStand(b) && k < |b.purchases| && b.purchases[k].status == Verified
    ensures b.purchases[k].id !in b.atRefund
  {
    assert RefundStands(b.tables.ledger, b.atRefund, b.purchases[k]);
  }

  lemma DebitWithKey(t: Tables, o: Order, id: string)
    requires Wallets.Valid(t) && OrderStands(o) && BalanceOf(t, o.user) > 0
    requires
      var found := RowByKey(t.ledger, RefundKey(o.payment));
      found.Some? ==> found.value.reason != Refund
    ensures
      var balance := BalanceOf(t, o.user);
      var posting := PostSpend(t, DebitInput(o, id, Reversible(o, balance)));
      if RowByKey(t.ledger, RefundKey(o.payment)).Some? then posting == Posting(t, Err(IdempotencyConflict))
      else
        && Wallets.Valid(posting.tables)
        && posting.result == Ok(balance - Reversible(o, balance))
        && exists row :: posting.tables.ledger == t.ledger + [row] && IsRefundRow(row, o, balance)
  {
    hide Wallets.Valid, Trimmed, TrimSpace, RowByKey;
    var balance := BalanceOf(t, o.user);
    var i := DebitInput(o, id, Reversible(o, balance));
    RefundKeyTrimmed(o.payment);
    PostKeepsBooks(t, i, -i.amount);
    if RowByKey(t.ledger, RefundKey(o.payment)).None? {
      var row := LedgerRow(i.user, -i.amount, balance - i.amount, i.reason, i.refType, i.refId, RefundKey(o.payment));
      assert PostSpend(t, i).tables.ledger == t.ledger + [row];
      assert IsRefundRow(row, o, balance);
    }
  }

  lemma RefundKeepsBooks(b: Books, k: nat, tables: Tables)
    requires BooksStand(b) && k < |b.purchases| && b.purchases[k].status == Verified && Wallets.Valid(tables)
    requires
      var balance := BalanceOf(b.tables, b.purchases[k].order.user);
      && balance >= 0
      && if balance == 0 then tables == b.tables
         else exists row :: tables.ledger == b.tables.ledger + [row] && IsRefundRow(row, b.purchases[k].order, balance)
    ensures BooksStand(MarkRefunded(b, k, tables, BalanceOf(b.tables, b.purchases[k].order.user)))
  {
    hide Wallets.Valid, OrderStands, IsGrantRow, IsRefundRow, RefundsStand, InvoicesStand;
    var p := b.purchases[k];
    var balance := BalanceOf(b.tables, p.order.user);
    var ps' := MarkRefunded(b, k, tables, balance).purchases;
    assert forall i :: 0 <= i < |ps'| ==> ps'[i].id == b.purchases[i].id && ps'[i].order == b.purchases[i].order;
    forall i | 0 <= i < |ps'| ensures Granted(tables.ledger, ps'[i].order) {
      assert Granted(b.tables.ledger, b.purchases[i].order);
    }
    RefundOfOneKeepsInvoices(b, k, tables, balance);
    RefundOfOneKeepsRefunds(b, k, tables, balance);
  }

  lemma RefundOfOneKeepsInvoices(b: Books, k: nat, tables: Tables, balance: int)
    requires k < |b.purchases| && PurchasesStand(b.purchases) && InvoicesStand(b.invoices, b.purchases)
    ensures
      var b' := MarkRefunded(b, k, tables, balance);
      InvoicesStand(b'.invoices, b'.purchases)
  {
    hide OrderStands;
    var p, b' := b.purchases[k], MarkRefunded(b, k, tables, balance);
    var ps, ps' := b.purchases, b'.purchases;
    RefundKeepsRows(b, k, tables, balance);
    assert InvoiceStands(b.invoices, p);
    forall i | 0 <= i < |ps'| ensures InvoiceStands(b'.invoices, ps'[i]) {
      assert InvoiceStands(b.invoices, ps[i]);
    }
  }

  lemma RefundKeepsRows(b: Books, k: nat, tables: Tables, balance: int)
    requires k < |b.purchases| && PurchasesStand(b.purchases)
    ensures
      var ps, ps' := b.purchases, MarkRefunded(b, k, tables, balance).purchases;
      && |ps'| == |ps|
      && (forall i :: 0 <= i < |ps| ==> ps'[i].id == ps[i].id && ps'[i].order == ps[i].order)
      && (forall i :: 0 <= i < |ps| && i != k ==> ps'[i] == ps[i] && ps[i].id != ps[k].id)
      && (forall id :: Known(ps, id) ==> Known(ps', id))
  {
    hide OrderStands;
    var ps, ps' := b.purchases, MarkRefunded(b, k, tables, balance).purchases;
    forall id | Known(ps, id) ensures Known(ps', id) {
      var i :| 0 <= i < |ps| && ps[i].id == id;
      assert ps'[i].id == id;
    }
  }

  lemma RefundOfOneKeepsRefunds(b: Books, k: nat, tables: Tables, balance: int)
    requires k < |b.purchases| && b.purchases[k].status == Verified
    requires PurchasesStand(b.purchases) && RefundsStand(b.tables.ledger, b.atRefund, b.purchases)
    requires balance >= 0
    requires if balance == 0 then tables == b.tables
             else exists row :: tables.ledger == b.tables.ledger + [row] && IsRefundRow(row, b.purchases[k].order, balance)
    ensures
      var b' := MarkRefunded(b, k, tables, balance);
      RefundsStand(tables.ledger, b'.atRefund, b'.purchases)
  {
    hide Wallets.Valid, OrderStands, IsRefundRow;
    var p := b.purchases[k];
    var b' := MarkRefunded(b, k, tables, balance);
    var ps, ps', l, l' := b.purchases, b'.purchases, b.tables.ledger, tables.ledger;
    RefundKeepsRows(b, k, tables, balance);
    assert forall row :: row in l ==> row in l';
    forall i | 0 <= i < |ps'| ensures RefundStands(l', b'.atRefund, ps'[i]) {
      assert RefundStands(l, b.atRefund, ps[i]);
    }
    assert p.id !in b.atRefund by { assert RefundStands(l, b.atRefund, p); }
    forall row | row in l' ensures RefundRowStands(row, b'.atRefund, ps') {
      if row in l {
        assert RefundRowStands(row, b.atRefund, ps);
      } else {
        assert IsRefundRow(row, ps'[k].order, b'.atRefund[ps'[k].id]);
      }
    }
  }

  lemma ClawbackKeepsBooks(b: Books, k: nat, p: WebPurchase)
    requires BooksStand(b) && k < |b.purchases| && b.purchases[k].id == p.id && b.purchases[k].order == p.order
    ensures BooksStand(Clawback(b, p).books)
  {
    hide Wallets.Valid, IsRefundRow, InvoicesStand, RefundsStand, GrantsStand, Post;
    RowIsFound(b.purchases, k);
    if b.purchases[k].status == Verified {
      BalanceIsSum(b.tables, p.order.user);
      if BalanceOf(b.tables, p.order.user) == 0 {
        RefundKeepsBooks(b, k, b.tables);
      } else {
        DebitPosts(b, k);
        var i := DebitInput(p.order, p.id, Reversible(p.order, BalanceOf(b.tables, p.order.user)));
        if PostSpend(b.tables, i).result.Ok? {
          RefundKeepsBooks(b, k, PostSpend(b.tables, i).tables);
        }
      }
    }
  }

  // A refund of a purchase not refunded yet fails exactly when there is something to take back
  // and its key is already spoken for.
  lemma ClawbackFailsIff(b: Books, k: nat, p: WebPurchase)
    requires BooksStand(b) && k < |b.purchases| && b.purchases[k].id == p.id && b.purchases[k].order == p.order
    ensures Clawback(b, p).result.Err? <==>
      && b.purchases[k].status == Verified
      && BalanceOf(b.tables, p.order.user) > 0
      && RowByKey(b.tables.ledger, RefundKey(p.order.payment)).Some?
    ensures Clawback(b, p).result.Err? ==> Clawback(b, p).books == b
  {
    hide Wallets.Valid, IsRefundRow, InvoicesStand, RefundsStand, GrantsStand, Post, RowByKey;
    RowIsFound(b.purchases, k);
    BalanceIsSum(b.tables, p.order.user);
    if b.purchases[k].status == Verified && BalanceOf(b.tables, p.order.user) > 0 {
      DebitPosts(b, k);
    }
  }

  // A reversal takes exactly the unspent part of what was granted, from the buyer alone, tells the
  // balance it leaves, and happens once.
  lemma {:induction false} ClawbackTakesUnspent(b: Books, k: nat, p: WebPurchase)
    requires BooksStand(b) && k < |b.purchases| && b.purchases[k].id == p.id && b.purchases[k].order == p.order
    requires Clawback(b, p).result.Ok?
    ensures
      var r, b' := Clawback(b, p).result.value, Clawback(b, p).books;
      var before := BalanceOf(b.tables, p.order.user);
      && r.purchase == p.id
      && r.balanceAfter == BalanceOf(b'.tables, p.order.user) == before - r.reversed
      && r.reversed == (if r.already then 0 else if before < p.order.credits then before else p.order.credits)
      && (r.already <==> b.purchases[k].status == Refunded)
      && (r.already ==> b' == b)
      && b'.purchases == b.purchases[k := p.(status := Refunded)]
      && (forall u :: u != p.order.user ==> BalanceOf(b'.tables, u) == BalanceOf(b.tables, u))
  {
    hide Wallets.Valid, InvoicesStand, RefundsStand, GrantsStand, RowByKey, TrimSpace;
    RowIsFound(b.purchases, k);
    BalanceIsSum(b.tables, p.order.user);
    assert p.(status := b.purchases[k].status) == b.purchases[k];
    if b.purchases[k].status == Verified && BalanceOf(b.tables, p.order.user) > 0 {
      DebitPosts(b, k);
      var i := DebitInput(p.order, p.id, Reversible(p.order, BalanceOf(b.tables, p.order.user)));
      PostMovesOne(b.tables, i, -i.amount);
    }
  }

  lemma PostMovesOne(t: Tables, i: ApplyInput, delta: int)
    requires Post(t, i, delta).result == Ok(BalanceOf(t, i.user) + delta)
    requires RowByKey(t.ledger, TrimSpace(i.key)).None?
    ensures BalanceOf(Post(t, i, delta).tables, i.user) == BalanceOf(t, i.user) + delta
    ensures forall u :: u != i.user ==> BalanceOf(Post(t, i, delta).tables, u) == BalanceOf(t, u)
  {
  }

  // ---------------------------------------------------------------- whole runs

  // Deliveries, refunds and chargebacks in any order, between any other wallet operations. Only
  // refunds debit with the refund reason.
  datatype Op =
    | DeliverOp(order: Order, id: string, rate: int)
    | ClawbackOp(id: string)
    | WalletOp(op: Wallets.Op)

  predicate Allowed(op: Op) {
    (op.DeliverOp? ==> OrderStands(op.order)) && (op.WalletOp? ==> op.op.input.reason != Refund)
  }

  function Step(b: Books, op: Op): Books {
    match op
    case DeliverOp(o, id, rate) => Deliver(b, o, id, rate).books
    case ClawbackOp(id) =>
      (match ById(b.purchases, id)
       case None => b
       case Some(k) => Clawback(b, b.purchases[k]).books)
    case WalletOp(w) => b.(tables := Perform(b.tables, w).tables)
  }

  function Run(b: Books, ops: seq<Op>): Books
    decreases |ops|
  {
    if ops == [] then b else Run(Step(b, ops[0]), ops[1..])
  }

  lemma StepKeepsBooks(b: Books, op: Op)
    requires BooksStand(b) && Allowed(op)
    ensures BooksStand(Step(b, op))
  {
    match op
    case DeliverOp(o, id, rate) => DeliverKeepsBooks(b, o, id, rate);
    case ClawbackOp(id) =>
      if ById(b.purchases, id).Some? {
        ClawbackKeepsBooks(b, ById(b.purchases, id).value, b.purchases[ById(b.purchases, id).value]);
      }
    case WalletOp(w) =>
      hide BooksStand;
      PostShapes(b, w);
      ForeignRowsKeepBooks(b, Perform(b.tables, w).tables);
  }

  lemma PostShapes(b: Books, w: Wallets.Op)
    requires BooksStand(b) && w.input.reason != Refund
    ensures Wallets.Valid(Perform(b.tables, w).tables)
    ensures Perform(b.tables, w).tables.ledger == b.tables.ledger
            || exists row :: Perform(b.tables, w).tables.ledger == b.tables.ledger + [row] && row.reason != Refund
  {
    hide Wallets.Valid, Post;
    PostShape(b.tables, w.input, w.input.amount);
    PostShape(b.tables, w.input, -w.input.amount);
  }

  // Rows of purchases stay, and only their status moves.
  predicate Continues(ps: seq<WebPurchase>, qs: seq<WebPurchase>) {
    && |ps| <= |qs|
    && forall i :: 0 <= i < |ps| ==>
         qs[i].id == ps[i].id && qs[i].order == ps[i].order && (ps[i].status == Refunded ==> qs[i].status == Refunded)
  }

  lemma StepContinues(b: Books, op: Op)
    ensures Continues(b.purchases, Step(b, op).purchases)
  {
    match op
    case DeliverOp(o, id, rate) =>
      hide PostGrant, NewInvoice, WithInvoice, ByPayment, ById;
    case ClawbackOp(id) =>
      hide PostSpend, InvoiceRefunded, BalanceOf, Reversible;
    case WalletOp(w) =>
      hide Perform;
  }

  lemma {:induction false} RunKeepsBooks(b: Books, ops: seq<Op>)
    requires BooksStand(b) && forall i :: 0 <= i < |ops| ==> Allowed(ops[i])
    ensures BooksStand(Run(b, ops)) && Continues(b.purchases, Run(b, ops).purchases)
    ensures forall i :: 0 <= i < |b.purchases| && b.purchases[i].status == Refunded ==>
      Run(b, ops).purchases[i] == b.purchases[i]
    decreases |ops|
  {
    hide BooksStand, Step, Allowed;
    if ops != [] {
      StepKeepsBooks(b, ops[0]);
      StepContinues(b, ops[0]);
      RunKeepsBooks(Step(b, ops[0]), ops[1..]);
    }
  }

  lemma NoBooksStand()
    ensures BooksStand(NoBooks)
  {
  }

  // How a purchase stands in the ledger: granted once and for all, reversed at most once.
  ghost predicate SettledOnce(b: Books, p: WebPurchase) {
    var l := b.tables.ledger;
    && (exists n :: 0 <= n < |l|
          && l[n].key == p.order.payment && l[n].user == p.order.user && l[n].reason == Reason.Purchase
          && l[n].delta == p.order.credits > 0
          && forall m :: 0 <= m < |l| && l[m].key == p.order.payment ==> m == n)
    && (if p.id in b.atRefund && b.atRefund[p.id] > 0
        then exists n :: 0 <= n < |l| && TakesBack(l[n], p.order, b.atRefund[p.id])
               && forall m :: 0 <= m < |l| && l[m].key == "refund:" + p.order.payment ==> m == n
        else forall m :: 0 <= m < |l| && l[m].key == "refund:" + p.order.payment ==> l[m].reason != Refund)
  }

  // The debit of a refund, in full: the smaller of what was granted and the balance it found.
  predicate TakesBack(row: LedgerRow, o: Order, balance: int) {
    && row.key == "refund:" + o.payment && row.user == o.user && row.reason == Refund
    && row.delta == -(if balance < o.credits then balance else o.credits)
    && row.balanceAfter == balance + row.delta
  }

  // In every run from empty books, each purchase has exactly one credit, equal to the credits
  // granted, exactly one debit once refunded, equal to what was unspent at that moment, and one
  // invoice, refunded exactly when the purchase is.
  lemma EveryRunSettlesOnce(ops: seq<Op>, i: nat)
    requires forall j :: 0 <= j < |ops| ==> Allowed(ops[j])
    requires i < |Run(NoBooks, ops).purchases|
    ensures
      var b := Run(NoBooks, ops);
      var p := b.purchases[i];
      && (p.status == Refunded <==> p.id in b.atRefund)
      && SettledOnce(b, p)
      && p.id in b.invoices
      && var inv := b.invoices[p.id];
         && inv.user == p.order.user && inv.gross == p.order.amount && inv.net + inv.tax == inv.gross
         && (inv.refunded <==> p.status == Refunded)
  {
    NoBooksStand();
    RunKeepsBooks(NoBooks, ops);
    PurchaseIsSettled(Run(NoBooks, ops), i);
  }

  lemma PurchaseIsSettled(b: Books, i: nat)
    requires BooksStand(b) && i < |b.purchases|
    ensures b.purchases[i].status == Refunded <==> b.purchases[i].id in b.atRefund
    ensures SettledOnce(b, b.purchases[i])
  {
    hide Wallets.Valid, InvoicesStand, IsRefundRow;
    var p, l := b.purchases[i], b.tables.ledger;
    var n := GrantReplays(b, i);
    OneRowPerKey(b.tables, n);
    assert RefundStands(l, b.atRefund, p);
    if p.id in b.atRefund && b.atRefund[p.id] > 0 {
      var debit :| debit in l && IsRefundRow(debit, p.order, b.atRefund[p.id]);
      var d :| 0 <= d < |l| && l[d] == debit;
      OneRowPerKey(b.tables, d);
      RefundRowTakesBack(debit, p.order, b.atRefund[p.id]);
    } else {
      forall m | 0 <= m < |l| && l[m].reason == Refund ensures l[m].key != RefundKey(p.order.payment) {
        NothingTaken(b, i, l[m]);
      }
    }
  }

  lemma OneRowPerKey(t: Tables, n: nat)
    requires Wallets.Valid(t) && n < |t.ledger|
    ensures forall m :: 0 <= m < |t.ledger| && t.ledger[m].key == t.ledger[n].key ==> m == n
  {
  }

  lemma RefundRowTakesBack(row: LedgerRow, o: Order, balance: int)
    requires IsRefundRow(row, o, balance)
    ensures TakesBack(row, o, balance)
  {
  }

  // Such runs. An app-store purchase is in the ledger under the key that a web payment brings
  // as its id: the payment is recorded and its credits never arrive.
  lemma SharedKeySwallowsGrant(o: Order, id: string, rate: int, app: string)
    requires OrderStands(o)
    ensures
      var b := Run(NoBooks, [WalletOp(GrantOp(ApplyInput(o.user, o.credits, Reason.Purchase, "iap_purchase", app, o.payment)))]);
      var paid := Deliver(b, o, id, rate);
      && BooksStand(b)
      && paid.result.Ok? && paid.books.purchases == [WebPurchase(id, o, Verified)]
      && BalanceOf(b.tables, o.user) == BalanceOf(paid.books.tables, o.user) == o.credits
  {
    var grant := ApplyInput(o.user, o.credits, Reason.Purchase, "iap_purchase", app, o.payment);
    hide BooksStand, Post, PostGrant, TrimSpace, Trimmed, NewInvoice, Deliver, RowByKey;
    NoBooksStand();
    RunKeepsBooks(NoBooks, [WalletOp(GrantOp(grant))]);
    TrimmedIsFixed(o.payment);
    FreshGrantPosts(Empty, grant);
    assert [WalletOp(GrantOp(grant))][1..] == [];
    var b := Step(NoBooks, WalletOp(GrantOp(grant)));
    assert Run(NoBooks, [WalletOp(GrantOp(grant))]) == b;
    assert b.tables.ledger[0].key == o.payment;
    NewDeliveryPaysIff(b, o, id, rate);
    NewDeliveryTakesNothing(b, o, id, rate);
  }

  // A payment not seen before adds its credits or leaves the balance.
  lemma NewDeliveryTakesNothing(b: Books, o: Order, id: string, rate: int)
    requires OrderStands(o) && ByPayment(b.purchases, o.payment).None?
    ensures
      var after := BalanceOf(Deliver(b, o, id, rate).books.tables, o.user);
      after == BalanceOf(b.tables, o.user) || after == BalanceOf(b.tables, o.user) + o.credits
  {
    hide RowByKey, TrimSpace, Trimmed, NewInvoice;
  }

  // Any grant that has used the refund key of a payment: its purchase can no longer be refunded.
  lemma TakenKeyBlocksRefund(o: Order, id: string, rate: int, grant: ApplyInput)
    requires OrderStands(o)
    requires grant.user == o.user && grant.amount > 0 && grant.reason == StubGrant && grant.key == RefundKey(o.payment)
    ensures
      var b := Run(NoBooks, [DeliverOp(o, id, rate), WalletOp(GrantOp(grant))]);
      && BooksStand(b) && b.purchases == [WebPurchase(id, o, Verified)]
      && Clawback(b, b.purchases[0]) == Reversal(b, Err(WalletRefused(IdempotencyConflict)))
  {
    var first, second := DeliverOp(o, id, rate), WalletOp(GrantOp(grant));
    hide BooksStand, Post, PostGrant, TrimSpace, Trimmed, NewInvoice, Clawback, Deliver, RowByKey;
    NoBooksStand();
    RefundKeyTrimmed(o.payment);
    RunKeepsBooks(NoBooks, [first, second]);
    OnePayment(o, id, rate);
    var paid := Step(NoBooks, first);
    assert |RefundKey(o.payment)| != |o.payment|;
    FreshGrantPosts(paid.tables, grant);
    var b := Step(paid, second);
    assert [first, second][1..] == [second] && [second][1..] == [];
    assert Run(NoBooks, [first, second]) == Run(paid, [second]) == b;
    assert b.tables.ledger[1].key == RefundKey(o.payment);
    ClawbackConflicts(b, 0);
  }

  lemma OnePayment(o: Order, id: string, rate: int)
    requires OrderStands(o)
    ensures
      var b := Deliver(NoBooks, o, id, rate).books;
      && b.purchases == [WebPurchase(id, o, Verified)]
      && b.tables == Tables(map[o.user := o.credits],
           [LedgerRow(o.user, o.credits, o.credits, Reason.Purchase, "web_purchase", id, o.payment)])
  {
    hide Post, TrimSpace, NewInvoice;
    TrimmedIsFixed(o.payment);
    FreshGrantPosts(Empty, CreditInput(o, id));
  }

  lemma FreshGrantPosts(t: Tables, i: ApplyInput)
    requires i.amount > 0 && i.reason != Unset && i.key != "" && TrimSpace(i.key) == i.key
    requires BalanceOf(t, i.user) >= 0 && RowByKey(t.ledger, i.key).None?
    ensures
      var next := BalanceOf(t, i.user) + i.amount;
      var row := LedgerRow(i.user, i.amount, next, i.reason, i.refType, i.refId, i.key);
      PostGrant(t, i) == Posting(Tables(t.accounts[i.user := next], t.ledger + [row]), Ok(next))
  {
  }

  // The failing case of a reversal, told apart: it is always the key that is taken.
  lemma ClawbackConflicts(b: Books, k: nat)
    requires BooksStand(b) && k < |b.purchases| && b.purchases[k].status == Verified
    requires BalanceOf(b.tables, b.purchases[k].order.user) > 0
    requires RowByKey(b.tables.ledger, RefundKey(b.purchases[k].order.payment)).Some?
    ensures Clawback(b, b.purchases[k]) == Reversal(b, Err(WalletRefused(IdempotencyConflict)))
  {
    hide Wallets.Valid, InvoicesStand, RefundsStand, GrantsStand, Post, RowByKey;
    RowIsFound(b.purchases, k);
    DebitPosts(b, k);
  }

  // Once a delivery has succeeded, delivering its payment again after any run, a refund of it
  // included, changes nothing.
  lemma {:induction false} LaterRedeliveryGrantsNothing(b: Books, o: Order, id: string, rate: int, ops: seq<Op>,
                                     again: Order, id': string, rate': int)
    requires BooksStand(b) && OrderStands(o) && Deliver(b, o, id, rate).result.Ok?
    requires forall i :: 0 <= i < |ops| ==> Allowed(ops[i])
    requires again.payment == o.payment
    ensures
      var later := Run(Deliver(b, o, id, rate).books, ops);
      Deliver(later, again, id', rate').books == later
  {
    hide BooksStand, Run, Post, NewInvoice;
    var first := Deliver(b, o, id, rate).books;
    DeliverKeepsBooks(b, o, id, rate);
    RunKeepsBooks(first, ops);
    var k := if ByPayment(b.purchases, o.payment).Some? then ByPayment(b.purchases, o.payment).value else |b.purchases|;
    assert first.purchases[k].order.payment == o.payment by { DeliveredRow(b, o, id, rate); }
    RedeliveryGrantsNothing(Run(first, ops), again, id', rate', k);
  }

  lemma DeliveredRow(b: Books, o: Order, id: string, rate: int)
    requires Deliver(b, o, id, rate).result.Ok?
    ensures
      var k := if ByPayment(b.purchases, o.payment).Some? then ByPayment(b.purchases, o.payment).value else |b.purchases|;
      k < |Deliver(b, o, id, rate).books.purchases|
      && Deliver(b, o, id, rate).books.purchases[k].order.payment == o.payment
  {
    hide Post, NewInvoice;
  }

  // ---------------------------------------------------------------- checkout

  datatype Priced = Priced(base: int, bonus: int, total: int, amount: int)

  // priceCheckout; promo is the active promotion's percentage.
  function PriceCheckout(shop: Shop, provider: string, product: string, customCredits: int, promo: Option<int>)
    : Result<Priced, PurchaseError>
  {
    var bonus := if promo.Some? then promo.value else 0;
    if product == ProductCustom then
      if (provider, BaselineProduct) !in shop.packs then Err(UnknownProduct)
      else
        var pack := shop.packs[(provider, BaselineProduct)];
        match Pricing.CustomAmountKurus(customCredits, pack.credits, pack.amount)
        case Err(e) => Err(if e.InvalidCustomCredits? then InvalidCustomCredits else UnknownProduct)
        case Ok(amount) => Ok(Priced(customCredits, bonus, Pricing.ApplyBonus(customCredits, bonus), amount))
    else if (provider, product) !in shop.packs || shop.packs[(provider, product)].amount <= 0 then Err(UnknownProduct)
    else
      var pack := shop.packs[(provider, product)];
      Ok(Priced(pack.credits, bonus, Pricing.ApplyBonus(pack.credits, bonus), pack.amount))
  }

  // InsertQuote: the first quote of an intent stands.
  function WithQuote(shop: Shop, intent: string, q: Quote): Shop {
    if intent in shop.quotes then shop else shop.(quotes := shop.quotes[intent := q])
  }

  // What may happen to the shop: other checkouts, and any change of packs.
  datatype ShopOp = QuoteOp(intent: string, quote: Quote) | PacksOp(packs: map<(string, string), Pack>)

  function ShopRun(shop: Shop, ops: seq<ShopOp>): Shop
    decreases |ops|
  {
    if ops == [] then shop
    else match ops[0]
      case QuoteOp(intent, q) => ShopRun(WithQuote(shop, intent, q), ops[1..])
      case PacksOp(packs) => ShopRun(shop.(packs := packs), ops[1..])
  }

  lemma {:induction false} QuotesStay(shop: Shop, ops: seq<ShopOp>, intent: string)
    requires intent in shop.quotes
    ensures intent in ShopRun(shop, ops).quotes && ShopRun(shop, ops).quotes[intent] == shop.quotes[intent]
    decreases |ops|
  {
    if ops != [] {
      match ops[0]
      case QuoteOp(other, q) => QuotesStay(WithQuote(shop, other, q), ops[1..], intent);
      case PacksOp(packs) => QuotesStay(shop.(packs := packs), ops[1..], intent);
    }
  }

  // The delivery pays for this quote: the right buyer, product and credits, through the provider.
  predicate PaysFor(i: GrantInput, q: Quote) {
    && i.user == Some(q.user) && TrimSpace(i.product) == q.product && i.credits == q.credits
    && IsWebProvider(Provider(i.provider)) && TrimSpace(i.payment) != ""
  }

  // A quote is honoured whatever happens to packs, promotions and other quotes, and only it is:
  // after any run a delivery for its intent is accepted exactly when it pays for the quote, and
  // then for the credits and the price that were quoted.
  lemma {:induction false} PaidQuoteIsGranted(shop: Shop, intent: string, ops: seq<ShopOp>, i: GrantInput)
    requires intent in shop.quotes && i.intent == intent != ""
    requires shop.quotes[intent].credits > 0 && shop.quotes[intent].amount > 0 && shop.quotes[intent].product != ""
    ensures
      var q, r := shop.quotes[intent], Checked(ShopRun(shop, ops), i);
      && (r.Ok? <==> PaysFor(i, q))
      && (r.Ok? ==> r.value == Order(q.user, q.product, TrimSpace(i.payment), intent, q.credits, q.amount))
  {
    hide Provider, TrimSpace;
    QuotesStay(shop, ops, intent);
  }

  // The price and the credits of a checkout: a custom amount, in the allowed range only, costs the
  // least not under the baseline pack's rate; a pack costs its price; the bonus is the greatest
  // within the active promotion.
  ghost predicate IsFair(shop: Shop, provider: string, product: string, customCredits: int, promo: Option<int>, q: Quote) {
    var key := (provider, if product == ProductCustom then BaselineProduct else product);
    && key in shop.packs
    && (if product == ProductCustom
        then q.base == customCredits && 50 <= customCredits <= 10000
             && Pricing.IsCeil(q.amount, customCredits * shop.packs[key].amount, shop.packs[key].credits)
        else q.base == shop.packs[key].credits && q.amount == shop.packs[key].amount)
    && q.amount > 0
    && q.bonus == (if promo.Some? then promo.value else 0)
    && (q.base > 0 && q.bonus > 0 ==> Pricing.IsFloor(q.credits - q.base, q.base * q.bonus, 100))
    && (q.base > 0 && q.bonus <= 0 ==> q.credits == q.base)
    && (q.base <= 0 ==> q.credits == 0)
  }

  function QuoteFor(user: UserId, product: string, p: Priced): Quote {
    Quote(user, product, p.base, p.bonus, p.total, p.amount)
  }

  lemma {:induction false} CheckoutIsFair(shop: Shop, user: UserId, provider: string, product: string,
                                          customCredits: int, promo: Option<int>)
    requires PriceCheckout(shop, provider, product, customCredits, promo).Ok?
    ensures IsFair(shop, provider, product, customCredits, promo,
                   QuoteFor(user, product, PriceCheckout(shop, provider, product, customCredits, promo).value))
  {
    hide Pricing.CeilDiv, Pricing.FloorDiv, Pricing.IsCeil, Pricing.IsFloor;
    var p := PriceCheckout(shop, provider, product, customCredits, promo).value;
    if product == ProductCustom {
      var pack := shop.packs[(provider, BaselineProduct)];
      Pricing.Quotient(customCredits * pack.amount, pack.credits);
      CustomPricesAreReal(customCredits, pack);
    }
    Pricing.Quotient(p.base * p.bonus, 100);
  }

  // Which checkouts are priced: a custom amount from 50 to 10000 credits while the baseline pack is
  // active with credits and a price, and any other active pack with a price.
  lemma {:induction false} CheckoutAcceptedIff(shop: Shop, provider: string, product: string, customCredits: int, promo: Option<int>)
    ensures
      var r := PriceCheckout(shop, provider, product, customCredits, promo);
      var baseline, own := (provider, "credits_100"), (provider, product);
      if product == "credits_custom" then
        && (r.Ok? <==>
              && baseline in shop.packs && shop.packs[baseline].credits > 0 && shop.packs[baseline].amount > 0
              && 50 <= customCredits <= 10000)
        && (r == Err(InvalidCustomCredits) <==> baseline in shop.packs && !(50 <= customCredits <= 10000))
      else
        && (r.Ok? <==> own in shop.packs && shop.packs[own].amount > 0)
        && (r.Err? ==> r.error == UnknownProduct)
  {
    hide Pricing.CeilDiv, Pricing.ApplyBonus;
  }

  lemma PricingErrors(shop: Shop, provider: string, product: string, customCredits: int, promo: Option<int>)
    ensures
      var r := PriceCheckout(shop, provider, product, customCredits, promo);
      r.Err? ==> r.error in {UnknownProduct, InvalidCustomCredits}
  {
  }

  lemma CustomPricesAreReal(credits: int, pack: Pack)
    requires Pricing.CustomAmountKurus(credits, pack.credits, pack.amount).Ok?
    ensures Pricing.CustomAmountKurus(credits, pack.credits, pack.amount).value > 0
  {
    hide Pricing.CeilDiv;
    Pricing.CustomPriceIsLeast(credits, pack.credits, pack.amount);
    var price := Pricing.CustomAmountKurus(credits, pack.credits, pack.amount).value;
    assert credits * pack.amount > 0;
    assert price <= 0 ==> price * pack.credits <= 0;
  }

  // ---------------------------------------------------------------- the services

  // The row was read from the table, at this moment or before.
  ghost predicate WasRead(ps: seq<WebPurchase>, p: WebPurchase) {
    exists k :: 0 <= k < |ps| && ps[k].id == p.id && ps[k].order == p.order
  }

  class WebPurchases {
    const wallet: Wallet
    const rate: int
    var shop: Shop
    var purchases: seq<WebPurchase>
    var invoices: map<string, Invoice>
    var flagged: set<(UserId, string)>    // pending chargeback flags
    ghost var atRefund: map<string, int>

    ghost function State(): Books
      reads this, wallet
    {
      Books(wallet.State(), purchases, invoices, atRefund)
    }

    constructor (wallet: Wallet, rate: int, shop: Shop)
      requires wallet.State() == Empty
      ensures this.wallet == wallet && this.rate == rate && this.shop == shop
      ensures State() == NoBooks && BooksStand(State()) && flagged == {}
    {
      this.wallet, this.rate, this.shop := wallet, rate, shop;
      purchases, invoices, flagged, atRefund := [], map[], {}, map[];
      new;
      NoBooksStand();
    }

    // StartCheckout; charged is the intent the payments service opened, if it did.
    method StartCheckout(user: UserId, provider: string, product: string, customCredits: int, promo: Option<int>,
                         charged: Option<string>) returns (r: Result<string, PurchaseError>)
      modifies this`shop
      ensures r.Err? ==> shop == old(shop)
      ensures r == Err(InvalidProvider) <==> !IsWebProvider(Provider(provider))
      ensures r.Ok? <==>
        && IsWebProvider(Provider(provider)) && charged.Some?
        && PriceCheckout(old(shop), Provider(provider), TrimSpace(product), customCredits, promo).Ok?
      ensures IsWebProvider(Provider(provider)) ==>
        var priced := PriceCheckout(old(shop), Provider(provider), TrimSpace(product), customCredits, promo);
        && (priced.Err? ==> r == Err(priced.error))
        && (priced.Ok? && charged.None? ==> r == Err(VerifierUnavailable))
      // packs and earlier quotes stay; a new quote is for this buyer, at a fair price
      ensures shop.packs == old(shop).packs
      ensures forall intent :: intent in old(shop).quotes ==>
        intent in shop.quotes && shop.quotes[intent] == old(shop).quotes[intent]
      ensures r.Ok? ==> r == Ok(charged.value) && shop.quotes.Keys == old(shop).quotes.Keys + {charged.value}
      ensures r.Ok? && charged.value !in old(shop).quotes ==>
        var q := shop.quotes[charged.value];
        && q.user == user && q.product == TrimSpace(product)
        && IsFair(old(shop), Provider(provider), TrimSpace(product), customCredits, promo, q)
    {
      hide IsFair, PriceCheckout, TrimSpace, Provider;
      var prov, prod := Provider(provider), TrimSpace(product);
      if !IsWebProvider(prov) { return Err(InvalidProvider); }
      var priced := PriceCheckout(shop, prov, prod, customCredits, promo);
      if priced.Err? {
        PricingErrors(shop, prov, prod, customCredits, promo);
        return Err(priced.error);
      }
      if charged.None? { return Err(VerifierUnavailable); }
      CheckoutIsFair(shop, user, prov, prod, customCredits, promo);
      var p := priced.value;
      if charged.value !in shop.quotes {
        var q := Quote(user, prod, p.base, p.bonus, p.total, p.amount);
        shop := shop.(quotes := shop.quotes[charged.value := q]);
      }
      r := Ok(charged.value);
    }

    // The rate in force is kept with the invoice; a negative one stands for the default of 20%.
    method WriteOnTx(user: UserId, id: string, gross: int)
      modifies this`invoices
      ensures invoices == WithInvoice(old(invoices), id, NewInvoice(user, gross, rate))
      // an invoice once written stays, and no other is touched
      ensures id in old(invoices) ==> invoices == old(invoices)
      ensures invoices.Keys == old(invoices).Keys + {id}
      ensures forall other :: other in old(invoices) ==> invoices[other] == old(invoices)[other]
      // a new one is for the buyer and the amount, and its tax is exact
      ensures id !in old(invoices) ==>
        && invoices[id].user == user && !invoices[id].refunded
        && invoices[id].rate == (if rate < 0 then 2000 else rate)
        && invoices[id].gross == (if gross <= 0 then 1 else gross) == invoices[id].net + invoices[id].tax
        && Pricing.IsFloor(invoices[id].net, invoices[id].gross * 10000, 10000 + invoices[id].rate)
    {
      hide Pricing.IsFloor, Pricing.IsCeil, Pricing.SplitKDV;
      var amount := if gross <= 0 then 1 else gross;
      var bps := if rate < 0 then 2000 else rate;
      Pricing.SplitIsExact(amount, bps);
      var split := Pricing.SplitKDV(amount, bps);
      if id !in invoices {
        invoices := invoices[id := Invoice(user, bps, split.net, split.tax, split.gross, false)];
      }
    }

    method MarkInvoiceRefundedOnTx(id: string)
      modifies this`invoices
      ensures invoices == InvoiceRefunded(old(invoices), id)
    {
      if id in invoices && !invoices[id].refunded {
        invoices := invoices[id := invoices[id].(refunded := true)];
      }
    }

    // Duplicate payments grant exactly once; id is the fresh row id.
    method GrantFromPayments(i: GrantInput, id: string) returns (r: Result<GrantResult, PurchaseError>)
      requires BooksStand(State())
      modifies this`purchases, this`invoices, wallet
      ensures BooksStand(State())
      ensures
        match Checked(shop, i)
        case Err(e) => r == Err(e) && State() == old(State())
        case Ok(o) => State() == Deliver(old(State()), o, id, rate).books && r == Deliver(old(State()), o, id, rate).result
    {
      var checked := Checked(shop, i);
      if checked.Err? { return Err(checked.error); }
      r := GrantOnTx(checked.value, id);
    }

    method GrantOnTx(o: Order, id: string) returns (r: Result<GrantResult, PurchaseError>)
      requires BooksStand(State()) && OrderStands(o)
      modifies this`purchases, this`invoices, wallet
      ensures BooksStand(State())
      ensures State() == Deliver(old(State()), o, id, rate).books && r == Deliver(old(State()), o, id, rate).result
    {
      hide Wallets.Valid, PurchasesStand, GrantsStand, InvoicesStand, RefundsStand, Post, NewInvoice, OrderStands;
      DeliverKeepsBooks(State(), o, id, rate);
      var before, purchaseId, credits, user, already := purchases, id, o.credits, o.user, false;
      var k := ByPayment(purchases, o.payment);
      if k.Some? {
        already := true;
        var existing := purchases[k.value];
        if existing.order.user != o.user { return Err(InvalidReceipt); }
        purchaseId, credits := existing.id, existing.order.credits;
      } else {
        var taken := ById(purchases, id);
        if taken.Some? { return Err(StorageFailed); }
        purchases := purchases + [WebPurchase(id, o, Verified)];
      }
      var granted := wallet.GrantCreditsOnTx(
        ApplyInput(o.user, credits, Reason.Purchase, "web_purchase", purchaseId, o.payment));
      if granted.Err? {
        purchases := before;
        RefusalChangesNothing(old(wallet.State()), CreditInput(if k.Some? then purchases[k.value].order else o, purchaseId), credits);
        return Err(WalletRefused(granted.error));
      }
      if !already { WriteOnTx(o.user, purchaseId, o.amount); }
      r := Ok(GrantResult(granted.value, credits, purchaseId, already));
    }

    method ApplyCreditClawback(p: WebPurchase) returns (r: Result<RefundResult, PurchaseError>)
      requires BooksStand(State()) && WasRead(purchases, p)
      modifies this`purchases, this`invoices, this`atRefund, wallet
      ensures BooksStand(State())
      ensures State() == Clawback(old(State()), p).books && r == Clawback(old(State()), p).result
    {
      hide Wallets.Valid, PurchasesStand, GrantsStand, InvoicesStand, RefundsStand, Post, OrderStands;
      ghost var at :| 0 <= at < |purchases| && purchases[at].id == p.id && purchases[at].order == p.order;
      ClawbackKeepsBooks(State(), at, p);
      var k := ById(purchases, p.id);
      if k.None? { return Err(PurchaseNotFound); }
      var balance := wallet.GetBalance(p.order.user);
      if purchases[k.value].status == Refunded { return Ok(RefundResult(p.id, 0, balance, true)); }
      var amount := if balance < p.order.credits then balance else p.order.credits;
      var after := balance;
      if amount > 0 {
        var spent := wallet.SpendCreditsOnTx(
          ApplyInput(p.order.user, amount, Refund, "web_purchase", p.id, "refund:" + p.order.payment));
        if spent.Err? {
          RefusalChangesNothing(old(wallet.State()), DebitInput(p.order, p.id, amount), -amount);
          return Err(WalletRefused(spent.error));
        }
        after := spent.value;
      }
      purchases := purchases[k.value := purchases[k.value].(status := Refunded)];
      atRefund := atRefund[p.id := balance];
      MarkInvoiceRefundedOnTx(p.id);
      r := Ok(RefundResult(p.id, amount, after, false));
    }

    // The money goes back through the payments service first; if that fails nothing is reversed.
    method RefundWebPurchase(id: string, key: string, paidBack: bool) returns (r: Result<RefundResult, PurchaseError>)
      requires BooksStand(State())
      modifies this`purchases, this`invoices, this`atRefund, wallet
      ensures BooksStand(State())
      ensures
        var k := ById(old(purchases), id);
        if id == "" || TrimSpace(key) == "" then r == Err(InvalidReceipt) && State() == old(State())
        else if k.None? then r == Err(PurchaseNotFound) && State() == old(State())
        else if old(purchases)[k.value].status == Verified && !paidBack then
          r == Err(PaymentsRefundFailed) && State() == old(State())
        else
          && State() == Clawback(old(State()), old(purchases)[k.value]).books
          && r == Clawback(old(State()), old(purchases)[k.value]).result
    {
      hide BooksStand, Post, TrimSpace;
      var trimmed := TrimSpace(key);
      if id == "" || trimmed == "" { return Err(InvalidReceipt); }
      var k := ById(purchases, id);
      if k.None? { return Err(PurchaseNotFound); }
      var p := purchases[k.value];
      if p.status == Refunded {
        var balance := wallet.GetBalance(p.order.user);
        return Ok(RefundResult(p.id, 0, balance, true));
      }
      if !paidBack { return Err(PaymentsRefundFailed); }
      r := ApplyCreditClawback(p);
    }

    // The flag stands even when the clawback fails; nobody is banned.
    method HandleChargeback(intent: string, payment: string) returns (r: Result<RefundResult, PurchaseError>)
      requires BooksStand(State())
      modifies this`purchases, this`invoices, this`atRefund, this`flagged, wallet
      ensures BooksStand(State())
      ensures
        var k := ByIntent(old(purchases), intent, TrimSpace(payment));
        if intent == "" then r == Err(InvalidReceipt) && State() == old(State()) && flagged == old(flagged)
        else if k.None? then r == Err(PurchaseNotFound) && State() == old(State()) && flagged == old(flagged)
        else
          var p := old(purchases)[k.value];
          && flagged == old(flagged) + {(p.order.user, p.id)}
          && State() == Clawback(old(State()), p).books && r == Clawback(old(State()), p).result
    {
      hide Post, TrimSpace, Wallets.Valid, GrantsStand, InvoicesStand, RefundsStand, OrderStands;
      if intent == "" { return Err(InvalidReceipt); }
      var k := ByIntent(purchases, intent, TrimSpace(payment));
      if k.None? { return Err(PurchaseNotFound); }
      var p := purchases[k.value];
      RowIsFound(purchases, k.value);
      if (p.order.user, p.id) !in flagged { flagged := flagged + {(p.order.user, p.id)}; }
      if p.status == Refunded {
        var balance := wallet.GetBalance(p.order.user);
        return Ok(RefundResult(p.id, 0, balance, true));
      }
      r := ApplyCreditClawback(p);
    }

    // Any other wallet caller.
    method OtherOp(op: Wallets.Op) returns (r: Result<int, WalletError>)
      requires BooksStand(State()) && op.input.reason != Refund
      modifies wallet
      ensures BooksStand(State()) && State() == Step(old(State()), WalletOp(op))
      ensures r == Perform(old(wallet.State()), op).result
    {
      hide PurchasesStand, GrantsStand, InvoicesStand, RefundsStand, Wallets.Valid, Post;
      StepKeepsBooks(State(), WalletOp(op));
      match op {
        case GrantOp(i) => r := wallet.GrantCreditsOnTx(i);
        case SpendOp(i) => r := wallet.SpendCreditsOnTx(i);
      }
    }
  }
}
