/** The sales page: a draft cart of line items and a selected customer,
    the commit that writes the sale and then the stock of each line's
    product, the product picker and the searchable, paginated history. */
module Sales {
  import opened Common
  import opened Calendar
  import opened Entities
  import opened Store

  const ItemsPerPage := 10

  // ---------------------------------------------------------------------
  // Cart arithmetic

  /** Σ item.total */
  function TotalAmount(items: seq<SaleItem>): int
    decreases |items|
  {
    if items == [] then 0 else TotalAmount(items[..|items| - 1]) + items[|items| - 1].total
  }

  /** Σ item.costPrice × item.quantity */
  function TotalCost(items: seq<SaleItem>): int
    decreases |items|
  {
    if items == [] then 0
    else TotalCost(items[..|items| - 1]) + items[|items| - 1].costPrice * items[|items| - 1].quantity
  }

  /** Σ quantity × sellPrice: what the customer pays, computed from the lines' inputs. */
  function Revenue(items: seq<SaleItem>): int
    decreases |items|
  {
    if items == [] then 0
    else Revenue(items[..|items| - 1]) + items[|items| - 1].quantity * items[|items| - 1].sellPrice
  }

  /** Every line's total is its quantity times its sell price, as the add
      operation computes it. */
  predicate LineTotalsHold(items: seq<SaleItem>)
  {
    forall i :: 0 <= i < |items| ==> items[i].total == items[i].quantity * items[i].sellPrice
  }

  lemma {:induction false} TotalAmountIsRevenue(items: seq<SaleItem>)
    requires LineTotalsHold(items)
    ensures TotalAmount(items) == Revenue(items)
    decreases |items|
  {
    if items != [] {
      TotalAmountIsRevenue(items[..|items| - 1]);
    }
  }

  /** filter((_, i) => i !== index) */
  function RemoveAt<T>(s: seq<T>, index: int): seq<T>
  {
    if 0 <= index < |s| then s[..index] + s[index + 1..] else s
  }

  /** Removal drops the line at index and keeps the others in order; any
      other index keeps the whole cart. */
  lemma RemoveAtKeepsOthers<T>(s: seq<T>, index: int)
    ensures 0 <= index < |s| ==> |RemoveAt(s, index)| == |s| - 1
    ensures 0 <= index < |s| ==> forall j :: 0 <= j < |s| - 1 ==>
      RemoveAt(s, index)[j] == s[if j < index then j else j + 1]
    ensures !(0 <= index < |s|) ==> RemoveAt(s, index) == s
  {
  }

  /** Appending a line adds exactly its amounts to the totals. */
  lemma TotalsOfSnoc(r: seq<SaleItem>, x: SaleItem)
    ensures TotalAmount(r + [x]) == TotalAmount(r) + x.total
    ensures TotalCost(r + [x]) == TotalCost(r) + x.costPrice * x.quantity
  {
    assert (r + [x])[..|r|] == r;
  }

  lemma RemoveAtSnoc<T>(init: seq<T>, last: T, index: int)
    requires 0 <= index < |init|
    ensures RemoveAt(init + [last], index) == RemoveAt(init, index) + [last]
  {
    assert (init + [last])[index + 1..] == init[index + 1..] + [last];
  }

  /** Removing a line takes exactly its amounts out of the cart's totals. */
  lemma {:induction false} RemovedLineLeavesTotals(items: seq<SaleItem>, index: int)
    requires 0 <= index < |items|
    ensures TotalAmount(RemoveAt(items, index)) == TotalAmount(items) - items[index].total
    ensures TotalCost(RemoveAt(items, index)) == TotalCost(items) - items[index].costPrice * items[index].quantity
  {
    var n := |items|;
    var init, last := items[..n - 1], items[n - 1];
    assert items == init + [last];
    TotalsOfSnoc(init, last);
    if index == n - 1 {
      assert RemoveAt(items, index) == init;
    } else {
      RemoveAtSnoc(init, last, index);
      TotalsOfSnoc(RemoveAt(init, index), last);
      RemovedLineLeavesTotals(init, index);
    }
  }

  /** Removing a line keeps every other line's totals invariant. */
  lemma RemoveKeepsLineTotals(items: seq<SaleItem>, index: int)
    requires LineTotalsHold(items)
    ensures LineTotalsHold(RemoveAt(items, index))
  {
    RemoveAtKeepsOthers(items, index);
  }

  /** The product picker lists only products with stock left. */
  function PickerProducts(products: seq<Product>): (r: seq<Product>)
    ensures IsSubseq(r, products)
    ensures forall p :: p in r <==> p in products && p.quantity > 0
    ensures forall p :: multiset(r)[p] == if p.quantity > 0 then multiset(products)[p] else 0
  {
    Filter(products, (p: Product) => p.quantity > 0)
  }

  // ---------------------------------------------------------------------
  // Commit

  /** The sale record the commit writes; name and items are copies taken now. */
  function CommittedSale(customer: Customer, items: seq<SaleItem>, now: Instant): Sale
  {
    var amount := TotalAmount(items);
    var cost := TotalCost(items);
    Sale("", customer.id, customer.name, items, amount, cost, amount - cost, now)
  }

  /** The committed figures: revenue Σ qty × sell, cost Σ qty × cost, and
      their difference, with the customer's name as it is at commit time. */
  lemma CommitArithmetic(customer: Customer, items: seq<SaleItem>, now: Instant)
    requires LineTotalsHold(items)
    ensures CommittedSale(customer, items, now).totalAmount == Revenue(items)
    ensures CommittedSale(customer, items, now).totalCost == TotalCost(items)
    ensures CommittedSale(customer, items, now).profit == Revenue(items) - TotalCost(items)
    ensures CommittedSale(customer, items, now).customerName == customer.name
    ensures CommittedSale(customer, items, now).items == items
  {
    TotalAmountIsRevenue(items);
  }

  /** One stock write: the whole cached record, quantity lowered by one line. */
  datatype StockWrite = StockWrite(id: string, record: Product)

  /** The write one line causes: none when its product is not in the cached
      list, otherwise the cached record with the line's quantity taken off. */
  function LineWrite(cache: seq<Product>, item: SaleItem): (w: seq<StockWrite>)
    ensures |w| <= 1
    ensures w == [] <==> FindProduct(cache, item.productId).None?
    ensures w != [] ==> w[0].id == item.productId && w[0].record.id == item.productId
  {
    match FindProduct(cache, item.productId)
    case Some(p) => [StockWrite(p.id, p.(quantity := p.quantity - item.quantity))]
    case None => []
  }

  lemma LineWriteOf(cache: seq<Product>, item: SaleItem, p: Product)
    requires FindProduct(cache, item.productId) == Some(p)
    ensures LineWrite(cache, item) == [StockWrite(p.id, p.(quantity := p.quantity - item.quantity))]
  {
  }

  /** The stock writes for the first n lines of the cart, in cart order;
      every one is computed from the cached record as it was before the sale. */
  function WritesUpTo(cache: seq<Product>, items: seq<SaleItem>, n: nat): seq<StockWrite>
    requires n <= |items|
  {
    if n == 0 then [] else WritesUpTo(cache, items, n - 1) + LineWrite(cache, items[n - 1])
  }

  /** One more line adds its own write, if any, at the end. */
  lemma WritesStep(cache: seq<Product>, items: seq<SaleItem>, i: nat, done: seq<StockWrite>)
    requires i < |items|
    requires done == WritesUpTo(cache, items, i)
    ensures WritesUpTo(cache, items, i + 1) == done + LineWrite(cache, items[i])
    ensures LineWrite(cache, items[i]) == [] ==> WritesUpTo(cache, items, i + 1) == done
  {
    assert done + [] == done;
  }

  /** The stock writes a commit issues. */
  function StockWrites(cache: seq<Product>, items: seq<SaleItem>): seq<StockWrite>
  {
    WritesUpTo(cache, items, |items|)
  }

  /** The products collection after the first n writes, as updateProduct merges them. */
  function ApplyWrites(m: map<string, Product>, ws: seq<StockWrite>, n: nat): map<string, Product>
    requires n <= |ws|
  {
    if n == 0 then m else PutProduct(ApplyWrites(m, ws, n - 1), ws[n - 1].id, FullPatch(ws[n - 1].record))
  }

  /** The calls a complete commit issues: the sale first, then one product
      update per stock write, in order. */
  function CommitCalls(saleKey: string, ws: seq<StockWrite>): seq<Call>
  {
    [Push(Sales, saleKey)] + seq(|ws|, j requires 0 <= j < |ws| => Update(Products, ws[j].id))
  }

  /** The sale is written before any stock, and the stock writes follow in order. */
  lemma CommitCallsOrder(saleKey: string, ws: seq<StockWrite>)
    ensures |CommitCalls(saleKey, ws)| == |ws| + 1
    ensures CommitCalls(saleKey, ws)[0] == Push(Sales, saleKey)
    ensures forall j :: 0 <= j < |ws| ==> CommitCalls(saleKey, ws)[j + 1] == Update(Products, ws[j].id)
  {
  }

  /** Writes issued when the write at position `fault` is rejected
      (position 0 is the sale, 1..n the stock writes). */
  function Issued(fault: Option<nat>, n: nat): (k: nat)
    ensures 1 <= k <= n + 1
  {
    if fault.Some? && fault.value <= n then fault.value + 1 else n + 1
  }

  /** Stock writes that took effect. */
  function Applied(fault: Option<nat>, n: nat): (k: nat)
    ensures k <= n
  {
    if fault.None? || fault.value > n then n else if fault.value == 0 then 0 else fault.value - 1
  }

  predicate Committed(fault: Option<nat>, n: nat)
  {
    fault.None? || fault.value > n
  }

  /** Earlier lines' writes come first among the commit's writes. */
  lemma {:induction false} WritesPrefix(cache: seq<Product>, items: seq<SaleItem>, i: nat, n: nat)
    requires i <= n <= |items|
    ensures WritesUpTo(cache, items, i) <= WritesUpTo(cache, items, n)
    decreases n - i
  {
    if i < n {
      var before, lw := WritesUpTo(cache, items, n - 1), LineWrite(cache, items[n - 1]);
      WritesPrefix(cache, items, i, n - 1);
      assert WritesUpTo(cache, items, n) == before + lw;
      PrefixExtends(WritesUpTo(cache, items, i), before, lw);
    }
  }

  lemma PrefixExtends<T>(a: seq<T>, b: seq<T>, c: seq<T>)
    requires a <= b
    ensures a <= b + c
  {
    assert (b + c)[..|a|] == b[..|a|];
  }

  /** Applying a prefix of the writes only looks at that prefix. */
  lemma {:induction false} ApplyPrefix(m: map<string, Product>, ws: seq<StockWrite>, vs: seq<StockWrite>, n: nat)
    requires n <= |ws| && ws <= vs
    ensures ApplyWrites(m, ws, n) == ApplyWrites(m, vs, n)
  {
    if n > 0 {
      ApplyPrefix(m, ws, vs, n - 1);
    }
  }

  lemma CommitCallsStep(prior: seq<Call>, saleKey: string, ws: seq<StockWrite>, w: StockWrite)
    ensures prior + CommitCalls(saleKey, ws + [w]) == prior + CommitCalls(saleKey, ws) + [Update(Products, w.id)]
  {
    var l, r := CommitCalls(saleKey, ws + [w]), CommitCalls(saleKey, ws) + [Update(Products, w.id)];
    assert |l| == |r|;
    forall j | 0 <= j < |l| ensures l[j] == r[j] {
      if j > 0 { assert (ws + [w])[j - 1] == if j - 1 < |ws| then ws[j - 1] else w; }
    }
    assert l == r;
    assert prior + CommitCalls(saleKey, ws) + [Update(Products, w.id)] == prior + r;
  }

  /** The calls issued before a stop are a prefix of the full commit's calls. */
  lemma CommitCallsPrefix(saleKey: string, ws: seq<StockWrite>, k: nat)
    requires k <= |ws|
    ensures CommitCalls(saleKey, ws)[..k + 1] == CommitCalls(saleKey, ws[..k])
  {
    var l, r := CommitCalls(saleKey, ws)[..k + 1], CommitCalls(saleKey, ws[..k]);
    assert |l| == |r|;
    forall j | 0 <= j < |l| ensures l[j] == r[j] {
      if j > 0 { assert ws[..k][j - 1] == ws[j - 1]; }
    }
  }

  /** The writes of the lines before i, then line i's write, open the
      commit's writes. */
  lemma StoppedPrefix(cache: seq<Product>, items: seq<SaleItem>, i: nat)
    requires i < |items| && LineWrite(cache, items[i]) != []
    ensures var done, ws, lw := WritesUpTo(cache, items, i), StockWrites(cache, items), LineWrite(cache, items[i]);
      && |lw| == 1 && |done| < |ws| && ws[..|done| + 1] == done + lw && done <= ws
  {
    var done, ws := WritesUpTo(cache, items, i), StockWrites(cache, items);
    var next := WritesUpTo(cache, items, i + 1);
    WritesPrefix(cache, items, i + 1, |items|);
    assert next == done + LineWrite(cache, items[i]);
    assert ws[..|next|] == next;
  }

  /** A commit stopped by a rejected write at line i: the writes that took
      effect and the calls issued are those of the lines before it, plus
      the rejected call. */
  lemma StoppedCommit(m: map<string, Product>, cache: seq<Product>, items: seq<SaleItem>, i: nat,
                      saleKey: string, fault: Option<nat>, prior: seq<Call>)
    requires i < |items| && LineWrite(cache, items[i]) != []
    requires fault == Some(|WritesUpTo(cache, items, i)| + 1)
    ensures var done, ws := WritesUpTo(cache, items, i), StockWrites(cache, items);
      && !Committed(fault, |ws|)
      && ApplyWrites(m, ws, Applied(fault, |ws|)) == ApplyWrites(m, done, |done|)
      && prior + CommitCalls(saleKey, ws)[..Issued(fault, |ws|)]
         == prior + CommitCalls(saleKey, done) + [Update(Products, items[i].productId)]
  {
    var done, ws, lw := WritesUpTo(cache, items, i), StockWrites(cache, items), LineWrite(cache, items[i]);
    StoppedPrefix(cache, items, i);
    var w := lw[0];
    assert lw == [w];
    assert Applied(fault, |ws|) == |done| && Issued(fault, |ws|) == |done| + 2;
    ApplyPrefix(m, done, ws, |done|);
    CommitCallsPrefix(saleKey, ws, |done| + 1);
    CommitCallsStep(prior, saleKey, done, w);
  }

  /** The state of the stock loop before line i: the writes of the lines
      before it are applied and their calls issued, after the sale's push. */
  ghost predicate Progress(m0: map<string, Product>, cache: seq<Product>, items: seq<SaleItem>,
                           saleKey: string, prior: seq<Call>, i: nat, done: seq<StockWrite>,
                           products: map<string, Product>, log: seq<Call>)
  {
    && i <= |items|
    && done == WritesUpTo(cache, items, i)
    && products == ApplyWrites(m0, done, |done|)
    && log == prior + CommitCalls(saleKey, done)
  }

  /** The state after a commit, as a function of which write was rejected:
      whether it completed, the writes that took effect, the calls issued. */
  ghost predicate CommitOutcome(m0: map<string, Product>, cache: seq<Product>, items: seq<SaleItem>,
                                saleKey: string, prior: seq<Call>, fault: Option<nat>, committed: bool,
                                products: map<string, Product>, log: seq<Call>)
  {
    var ws := StockWrites(cache, items);
    && committed == Committed(fault, |ws|)
    && products == ApplyWrites(m0, ws, Applied(fault, |ws|))
    && log == prior + CommitCalls(saleKey, ws)[..Issued(fault, |ws|)]
  }

  /** The state after a rejected write at line i is the state a stopped
      commit promises. */
  lemma LineRejected(m: map<string, Product>, cache: seq<Product>, items: seq<SaleItem>, i: nat,
                     saleKey: string, fault: Option<nat>, prior: seq<Call>, done: seq<StockWrite>,
                     products: map<string, Product>, log: seq<Call>)
    requires i < |items| && LineWrite(cache, items[i]) != []
    requires done == WritesUpTo(cache, items, i) && fault == Some(|done| + 1)
    requires products == ApplyWrites(m, done, |done|)
    requires log == prior + CommitCalls(saleKey, done) + [Update(Products, items[i].productId)]
    ensures CommitOutcome(m, cache, items, saleKey, prior, fault, false, products, log)
  {
    StoppedCommit(m, cache, items, i, saleKey, fault, prior);
  }

  /** The state after an accepted write w for line i is the loop's state
      with w added to the writes done. */
  lemma LineAccepted(m: map<string, Product>, cache: seq<Product>, items: seq<SaleItem>, i: nat,
                     saleKey: string, prior: seq<Call>, done: seq<StockWrite>, w: StockWrite,
                     products: map<string, Product>, log: seq<Call>)
    requires i < |items| && LineWrite(cache, items[i]) == [w]
    requires done == WritesUpTo(cache, items, i)
    requires products == PutProduct(ApplyWrites(m, done, |done|), w.id, FullPatch(w.record))
    requires log == prior + CommitCalls(saleKey, done) + [Update(Products, w.id)]
    ensures Progress(m, cache, items, saleKey, prior, i + 1, done + [w], products, log)
  {
    WritesStep(cache, items, i, done);
    ApplyPrefix(m, done, done + [w], |done|);
    CommitCallsStep(prior, saleKey, done, w);
  }

  /** A line whose product is not cached leaves the loop's state as it is. */
  lemma LineSkipped(m: map<string, Product>, cache: seq<Product>, items: seq<SaleItem>, i: nat,
                    saleKey: string, prior: seq<Call>, done: seq<StockWrite>,
                    products: map<string, Product>, log: seq<Call>)
    requires i < |items| && LineWrite(cache, items[i]) == []
    requires Progress(m, cache, items, saleKey, prior, i, done, products, log)
    ensures Progress(m, cache, items, saleKey, prior, i + 1, done, products, log)
  {
    WritesStep(cache, items, i, done);
  }

  /** A loop that reached the end of the cart has committed. */
  lemma LoopFinished(m: map<string, Product>, cache: seq<Product>, items: seq<SaleItem>,
                     saleKey: string, prior: seq<Call>, fault: Option<nat>, done: seq<StockWrite>,
                     products: map<string, Product>, log: seq<Call>)
    requires Progress(m, cache, items, saleKey, prior, |items|, done, products, log)
    requires fault.None? || fault.value > |done|
    ensures CommitOutcome(m, cache, items, saleKey, prior, fault, true, products, log)
  {
    FinishedCommit(saleKey, done, fault);
  }

  /** A commit that ran to the end issued every call and every write. */
  lemma FinishedCommit(saleKey: string, ws: seq<StockWrite>, fault: Option<nat>)
    requires Committed(fault, |ws|)
    ensures Applied(fault, |ws|) == |ws|
    ensures CommitCalls(saleKey, ws)[..Issued(fault, |ws|)] == CommitCalls(saleKey, ws)
  {
    CommitCallsPrefix(saleKey, ws, |ws|);
    assert ws[..|ws|] == ws;
  }

  /** ws's ids at positions below n. */
  predicate WritesAvoid(ws: seq<StockWrite>, n: nat, id: string)
    requires n <= |ws|
  {
    forall j :: 0 <= j < n ==> ws[j].id != id
  }

  /** A write touches only the record it names. */
  lemma {:induction false} ApplyAvoiding(m: map<string, Product>, ws: seq<StockWrite>, n: nat, id: string)
    requires n <= |ws| && WritesAvoid(ws, n, id)
    ensures var r := ApplyWrites(m, ws, n); (id in r <==> id in m) && (id in m ==> r[id] == m[id])
  {
    if n > 0 {
      ApplyAvoiding(m, ws, n - 1, id);
    }
  }

  /** The writes of lines that sell other products name other records. */
  lemma {:induction false} WritesOfOtherLines(cache: seq<Product>, items: seq<SaleItem>, n: nat, id: string)
    requires n <= |items|
    requires forall j :: 0 <= j < n ==> items[j].productId != id
    ensures WritesAvoid(WritesUpTo(cache, items, n), |WritesUpTo(cache, items, n)|, id)
  {
    if n > 0 {
      WritesOfOtherLines(cache, items, n - 1, id);
    }
  }

  /** A product that no line sells keeps its stored record. */
  lemma UnsoldProductUnchanged(m: map<string, Product>, cache: seq<Product>, items: seq<SaleItem>, id: string)
    requires forall j :: 0 <= j < |items| ==> items[j].productId != id
    ensures var ws := StockWrites(cache, items);
      var r := ApplyWrites(m, ws, |ws|);
      (id in r <==> id in m) && (id in m ==> r[id] == m[id])
  {
    WritesOfOtherLines(cache, items, |items|, id);
    ApplyAvoiding(m, StockWrites(cache, items), |StockWrites(cache, items)|, id);
  }

  /** After the write at position k, no later write touching its record:
      the record holds what that write sent, whatever was there before. */
  lemma {:induction false} LastWriteLands(m: map<string, Product>, ws: seq<StockWrite>, k: nat, n: nat)
    requires k < n <= |ws|
    requires forall j :: k < j < n ==> ws[j].id != ws[k].id
    ensures ws[k].id in ApplyWrites(m, ws, n) && ApplyWrites(m, ws, n)[ws[k].id] == ws[k].record
  {
    if n - 1 == k {
      FullPatchReplaces(ProductAt(ApplyWrites(m, ws, k), ws[k].id), ws[k].record);
    } else {
      LastWriteLands(m, ws, k, n - 1);
    }
  }

  /** Line i's write sits at position |WritesUpTo(i)| of every longer run. */
  lemma LineWriteAt(cache: seq<Product>, items: seq<SaleItem>, i: nat, n: nat)
    requires i < n <= |items| && LineWrite(cache, items[i]) != []
    ensures |WritesUpTo(cache, items, i)| < |WritesUpTo(cache, items, n)|
    ensures WritesUpTo(cache, items, n)[|WritesUpTo(cache, items, i)|] == LineWrite(cache, items[i])[0]
  {
    WritesPrefix(cache, items, i + 1, n);
    var lw := LineWrite(cache, items[i]);
    assert lw == [lw[0]];
    assert WritesUpTo(cache, items, i + 1) == WritesUpTo(cache, items, i) + [lw[0]];
  }

  /** The writes of lines i+1..n-1 that sell other products name other records. */
  lemma {:induction false} LaterWritesAvoid(cache: seq<Product>, items: seq<SaleItem>, i: nat, n: nat, id: string)
    requires i < n <= |items|
    requires forall j :: i < j < n ==> items[j].productId != id
    ensures forall j :: |WritesUpTo(cache, items, i + 1)| <= j < |WritesUpTo(cache, items, n)| ==>
      WritesUpTo(cache, items, n)[j].id != id
    decreases n
  {
    if n > i + 1 {
      LaterWritesAvoid(cache, items, i, n - 1, id);
      var before: seq<StockWrite> := WritesUpTo(cache, items, n - 1);
      var lw: seq<StockWrite> := LineWrite(cache, items[n - 1]);
      var all: seq<StockWrite> := WritesUpTo(cache, items, n);
      var lo := |WritesUpTo(cache, items, i + 1)|;
      assert all == before + lw;
      forall j: int | lo <= j < |all|
        ensures all[j].id != id
      {
        if j < |before| { assert all[j] == before[j]; } else { assert all[j] == lw[0]; }
      }
    }
  }

  /** The stock quirk. Every write starts from the cached record, so the last
      line that sells a product decides its stored quantity: cached quantity
      minus that line's quantity, not minus the sum over its lines. Nothing
      keeps the result from being negative. */
  lemma LastLineWins(m: map<string, Product>, cache: seq<Product>, items: seq<SaleItem>, i: nat)
    requires i < |items|
    requires forall j :: i < j < |items| ==> items[j].productId != items[i].productId
    requires FindProduct(cache, items[i].productId).Some?
    ensures var p := FindProduct(cache, items[i].productId).value;
      var ws := StockWrites(cache, items);
      var r := ApplyWrites(m, ws, |ws|);
      items[i].productId in r && r[items[i].productId] == p.(quantity := p.quantity - items[i].quantity)
  {
    var ws, k := StockWrites(cache, items), |WritesUpTo(cache, items, i)|;
    LineWriteAt(cache, items, i, |items|);
    LaterWritesAvoid(cache, items, i, |items|, items[i].productId);
    assert |WritesUpTo(cache, items, i + 1)| == k + 1;
    LastWriteLands(m, ws, k, |ws|);
  }

  /** Two lines of one product with 10 in stock, selling 3 and then 2,
      leave 8 in stock, not 5. */
  lemma DuplicateLinesExample(p: Product, m: map<string, Product>)
    requires p.quantity == 10
    ensures var a := SaleItem(p.id, p.name, p.articleNumber, 3, 100, p.cost, 300);
      var b := SaleItem(p.id, p.name, p.articleNumber, 2, 100, p.cost, 200);
      ApplyWrites(m, StockWrites([p], [a, b]), |StockWrites([p], [a, b])|)[p.id].quantity == 8
  {
    var a := SaleItem(p.id, p.name, p.articleNumber, 3, 100, p.cost, 300);
    var b := SaleItem(p.id, p.name, p.articleNumber, 2, 100, p.cost, 200);
    assert FindProduct([p], p.id) == Some(p);
    LastLineWins(m, [p], [a, b], 1);
  }

  /** A line selling more than is in stock drives the stock negative. */
  lemma NegativeStockExample(p: Product, m: map<string, Product>)
    requires p.quantity == 1
    ensures var a := SaleItem(p.id, p.name, p.articleNumber, 3, 100, p.cost, 300);
      ApplyWrites(m, StockWrites([p], [a]), |StockWrites([p], [a])|)[p.id].quantity == -2
  {
    var a := SaleItem(p.id, p.name, p.articleNumber, 3, 100, p.cost, 300);
    assert FindProduct([p], p.id) == Some(p);
    LastLineWins(m, [p], [a], 0);
  }

  // ---------------------------------------------------------------------
  // Sales history

  /** customerName matches ignoring case, or id contains the term as typed. */
  predicate SaleMatches(s: Sale, term: string)
  {
    Includes(Lower(s.customerName), Lower(term)) || Includes(s.id, term)
  }

  function FilteredSales(sales: seq<Sale>, term: string): (r: seq<Sale>)
    ensures IsSubseq(r, sales)
    ensures forall s :: s in r <==> s in sales && SaleMatches(s, term)
    ensures forall s :: multiset(r)[s] == if SaleMatches(s, term) then multiset(sales)[s] else 0
    ensures term == "" ==> r == sales
  {
    Filter(sales, (s: Sale) => SaleMatches(s, term))
  }

  /** Array.prototype.slice(start, end), negative positions counting from the end. */
  function JsSlice<T>(xs: seq<T>, start: int, end: int): seq<T>
  {
    var n := |xs|;
    var s := if start < 0 then Max(n + start, 0) else Min(start, n);
    var e := if end < 0 then Max(n + end, 0) else Min(end, n);
    if s < e then xs[s..e] else []
  }

  /** Math.ceil(n / 10) */
  function TotalPages(n: nat): (r: nat)
    ensures n == 0 ==> r == 0
    ensures n > 0 ==> (r - 1) * ItemsPerPage < n <= r * ItemsPerPage
  {
    (n + ItemsPerPage - 1) / ItemsPerPage
  }

  /** The rows shown on page `page` (counted from 1). */
  function PageOf<T>(xs: seq<T>, page: int): (r: seq<T>)
    ensures page >= 1 ==> r == xs[Min((page - 1) * ItemsPerPage, |xs|)..Min(page * ItemsPerPage, |xs|)]
    ensures |r| <= ItemsPerPage
  {
    JsSlice(xs, (page - 1) * ItemsPerPage, page * ItemsPerPage)
  }

  /** Pages 1..k, one after the other. */
  function PagesUpTo<T>(xs: seq<T>, k: nat): seq<T>
  {
    if k == 0 then [] else PagesUpTo(xs, k - 1) + PageOf(xs, k)
  }

  lemma {:induction false} PagesUpToPrefix<T>(xs: seq<T>, k: nat)
    ensures PagesUpTo(xs, k) == xs[..Min(k * ItemsPerPage, |xs|)]
  {
    if k > 0 {
      PagesUpToPrefix(xs, k - 1);
      var a := Min((k - 1) * ItemsPerPage, |xs|);
      var b := Min(k * ItemsPerPage, |xs|);
      assert xs[..a] + xs[a..b] == xs[..b];
    }
  }

  /** Paging neither loses nor repeats a row: pages 1..totalPages, read in
      order, are the whole filtered list, and every later page is empty. */
  lemma PagesCoverAll<T>(xs: seq<T>)
    ensures PagesUpTo(xs, TotalPages(|xs|)) == xs
    ensures forall page :: page > TotalPages(|xs|) ==> PageOf(xs, page) == []
  {
    PagesUpToPrefix(xs, TotalPages(|xs|));
    assert xs[..|xs|] == xs;
  }

  // ---------------------------------------------------------------------
  // The page

  class SalesPage {
    var db: Database
    var customers: seq<Customer>
    var products: seq<Product>
    var sales: seq<Sale>
    var isDialogOpen: bool
    var selectedCustomer: string
    var saleItems: seq<SaleItem>
    var searchTerm: string
    var currentPage: int
    var selectedProduct: string
    var quantity: Entry
    var sellPrice: Entry

    ghost predicate Valid()
      reads this
    {
      LineTotalsHold(saleItems) && currentPage >= 1
    }

    constructor (db: Database)
      ensures Valid() && this.db == db
      ensures customers == [] && products == [] && sales == [] && saleItems == []
      ensures !isDialogOpen && selectedCustomer == "" && searchTerm == "" && currentPage == 1
      ensures selectedProduct == "" && quantity == Blank && sellPrice == Blank
    {
      this.db := db;
      customers, products, sales, saleItems := [], [], [], [];
      isDialogOpen, selectedCustomer, searchTerm, currentPage := false, "", "", 1;
      selectedProduct, quantity, sellPrice := "", Blank, Blank;
    }

    /** loadData: refresh the three cached lists from the store. */
    method LoadData()
      modifies this`customers, this`products, this`sales
      ensures Listing(customers, db.customers) && Listing(products, db.products) && Listing(sales, db.sales)
    {
      customers := db.ListCustomers();
      products := db.ListProducts();
      sales := db.ListSales();
    }

    /** addItemToSale */
    method AddItemToSale()
      requires Valid()
      modifies this`saleItems, this`selectedProduct, this`quantity, this`sellPrice
      ensures Valid()
      ensures var found := FindProduct(products, old(selectedProduct));
        if old(selectedProduct) == "" || old(quantity).Blank? || old(sellPrice).Blank? || found.None? then
          saleItems == old(saleItems) && selectedProduct == old(selectedProduct)
          && quantity == old(quantity) && sellPrice == old(sellPrice)
        else
          var p, q, price := found.value, old(quantity).value, old(sellPrice).value;
          saleItems == old(saleItems) + [SaleItem(p.id, p.name, p.articleNumber, q, price, p.cost, q * price)]
          && selectedProduct == "" && quantity == Blank && sellPrice == Blank
    {
      if selectedProduct == "" || quantity.Blank? || sellPrice.Blank? {
        return;
      }
      var found := FindProduct(products, selectedProduct);
      if found.None? {
        return;
      }
      var p := found.value;
      var item := SaleItem(p.id, p.name, p.articleNumber, quantity.value, sellPrice.value, p.cost,
                           quantity.value * sellPrice.value);
      saleItems := saleItems + [item];
      selectedProduct, quantity, sellPrice := "", Blank, Blank;
    }

    /** removeItemFromSale */
    method RemoveItemFromSale(index: int)
      requires Valid()
      modifies this`saleItems
      ensures Valid()
      ensures saleItems == RemoveAt(old(saleItems), index)
    {
      RemoveKeepsLineTotals(saleItems, index);
      saleItems := RemoveAt(saleItems, index);
    }

    /** completeSale. `now` is the clock; `fault` is the position of the
        write the backend rejects (0 the sale, k the k-th stock write), if
        any. Every guard failure returns before any store call; a rejected
        write stops the commit where it is and leaves the page as it was. */
    method CompleteSale(now: Instant, fault: Option<nat>)
      requires Valid()
      modifies this`customers, this`products, this`sales, this`selectedCustomer, this`saleItems, this`isDialogOpen
      modifies db`sales, db`products, db`log
      ensures Valid()
      ensures old(selectedCustomer) == "" || old(saleItems) == []
              || FindCustomer(old(customers), old(selectedCustomer)).None? ==>
        unchanged(this) && unchanged(db)
      ensures old(selectedCustomer) != "" && old(saleItems) != []
              && FindCustomer(old(customers), old(selectedCustomer)).Some? ==>
        var c := FindCustomer(old(customers), old(selectedCustomer)).value;
        var ws := StockWrites(old(products), old(saleItems));
        var sale := CommittedSale(c, old(saleItems), now);
        && (exists key :: key !in old(db.sales)
              && db.sales == (if fault == Some(0) then old(db.sales) else old(db.sales)[key := sale.(id := key)])
              && CommitOutcome(old(db.products), old(products), old(saleItems), key, old(db.log), fault,
                               Committed(fault, |ws|), db.products, db.log))
        && db.customers == old(db.customers)
        && if Committed(fault, |ws|) then
             saleItems == [] && selectedCustomer == "" && !isDialogOpen
             && Listing(customers, db.customers) && Listing(products, db.products) && Listing(sales, db.sales)
           else
             unchanged(this)
    {
      if selectedCustomer == "" || |saleItems| == 0 {
        return;
      }
      var found := FindCustomer(customers, selectedCustomer);
      if found.None? {
        return;
      }
      var key, committed := Commit(found.value, now, fault);
      if !committed {
        return;
      }
      LoadData();
      ClearDraft();
    }

    /** The writes of completeSale once its guards have passed: the sale
        record first, then the stock of each line. */
    method Commit(customer: Customer, now: Instant, fault: Option<nat>) returns (key: string, committed: bool)
      modifies db`sales, db`products, db`log
      ensures key !in old(db.sales)
      ensures db.sales == (if fault == Some(0) then old(db.sales)
                           else old(db.sales)[key := CommittedSale(customer, saleItems, now).(id := key)])
      ensures CommitOutcome(old(db.products), products, saleItems, key, old(db.log), fault, committed, db.products, db.log)
    {
      var sale := CommittedSale(customer, saleItems, now);
      ghost var prior := db.log;
      key := db.AddSale(sale, fault != Some(0));
      if fault == Some(0) {
        CommitCallsPrefix(key, StockWrites(products, saleItems), 0);
        return key, false;
      }
      committed := WriteStock(key, fault, prior);
    }

    /** After a commit: empty cart, no customer selected, dialog closed. */
    method ClearDraft()
      modifies this`selectedCustomer, this`saleItems, this`isDialogOpen
      ensures saleItems == [] && selectedCustomer == "" && !isDialogOpen
    {
      selectedCustomer, saleItems, isDialogOpen := "", [], false;
    }

    /** The loop over the cart inside completeSale: one product update per
        line whose product is cached, stopping at the first rejected write.
        Position 0 of `fault` is the sale write, already issued. */
    method WriteStock(key: string, fault: Option<nat>, ghost prior: seq<Call>) returns (committed: bool)
      requires fault != Some(0)
      requires db.log == prior + [Push(Sales, key)]
      modifies db`products, db`log
      ensures CommitOutcome(old(db.products), products, saleItems, key, prior, fault, committed, db.products, db.log)
    {
      assert CommitCalls(key, []) == [Push(Sales, key)];
      var cache, items := products, saleItems;
      var i, issued := 0, 0;
      ghost var done: seq<StockWrite> := [];
      while i < |items|
        invariant Progress(old(db.products), cache, items, key, prior, i, done, db.products, db.log)
        invariant issued == |done|
        invariant fault.None? || fault.value > issued
      {
        var ok;
        ok, done, issued := WriteLine(key, fault, prior, old(db.products), cache, items, i, done, issued);
        if !ok {
          return false;
        }
        i := i + 1;
      }
      LoopFinished(old(db.products), cache, items, key, prior, fault, done, db.products, db.log);
      return true;
    }

    /** One turn of that loop: the update for line i when its product is
        cached, from the cached record; nothing when it is not. On a
        rejected write the commit stops with the writes issued so far. */
    method WriteLine(key: string, fault: Option<nat>, ghost prior: seq<Call>, ghost m0: map<string, Product>,
                     cache: seq<Product>, items: seq<SaleItem>, i: nat, ghost done: seq<StockWrite>, issued: nat)
      returns (ok: bool, ghost next: seq<StockWrite>, issuedNext: nat)
      requires i < |items|
      requires Progress(m0, cache, items, key, prior, i, done, db.products, db.log)
      requires issued == |done| && (fault.None? || fault.value > issued)
      modifies db`products, db`log
      ensures ok ==> Progress(m0, cache, items, key, prior, i + 1, next, db.products, db.log)
      ensures ok ==> issuedNext == |next| && (fault.None? || fault.value > issuedNext)
      ensures !ok ==> CommitOutcome(m0, cache, items, key, prior, fault, false, db.products, db.log)
    {
      var item := items[i];
      var cached := FindProduct(cache, item.productId);
      if cached.Some? {
        var p := cached.value;
        var w := StockWrite(p.id, p.(quantity := p.quantity - item.quantity));
        LineWriteOf(cache, item, p);
        ok := !(fault.Some? && fault.value == issued + 1);
        db.UpdateProduct(w.id, FullPatch(w.record), ok);
        if !ok {
          LineRejected(m0, cache, items, i, key, fault, prior, done, db.products, db.log);
          return ok, done, issued;
        }
        LineAccepted(m0, cache, items, i, key, prior, done, w, db.products, db.log);
        next, issuedNext := done + [w], issued + 1;
      } else {
        LineSkipped(m0, cache, items, i, key, prior, done, db.products, db.log);
        ok, next, issuedNext := true, done, issued;
      }
    }

    /** Previous: setCurrentPage(prev => Math.max(prev - 1, 1)); the
        button is shown only when there is more than one page. */
    method PreviousPage()
      requires Valid()
      requires TotalPages(|FilteredSales(sales, searchTerm)|) > 1
      modifies this`currentPage
      ensures Valid()
      ensures currentPage == Max(old(currentPage) - 1, 1)
      ensures var last := TotalPages(|FilteredSales(sales, searchTerm)|);
        1 <= old(currentPage) <= last ==> 1 <= currentPage <= last
    {
      currentPage := Max(currentPage - 1, 1);
    }

    /** Next: setCurrentPage(prev => Math.min(prev + 1, totalPages)). */
    method NextPage()
      requires Valid()
      requires TotalPages(|FilteredSales(sales, searchTerm)|) > 1
      modifies this`currentPage
      ensures Valid()
      ensures currentPage == Min(old(currentPage) + 1, TotalPages(|FilteredSales(sales, searchTerm)|))
      ensures 1 <= currentPage <= TotalPages(|FilteredSales(sales, searchTerm)|)
    {
      currentPage := Min(currentPage + 1, TotalPages(|FilteredSales(sales, searchTerm)|));
    }

    /** paginatedSales */
    function ShownSales(): (r: seq<Sale>)
      reads this
      requires Valid()
      ensures forall s :: s in r ==> s in sales && SaleMatches(s, searchTerm)
      ensures |r| <= ItemsPerPage
    {
      PageOf(FilteredSales(sales, searchTerm), currentPage)
    }
  }
}
