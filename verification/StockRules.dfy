/**
 What one reserve or release does to the stock, and the two service functions that do it row
 by row inside one transaction.
 */
module StockRules {
  import opened Outcomes

  datatype Item = Item(product: int, quantity: int)
  datatype Kind = Reserving | Releasing
  datatype Refusal = NotFound(product: int) | Insufficient(product: int)
  datatype Change = Changed(rows: map<int, int>) | Refused(why: Refusal)

  /** The request schema only lets positive quantities through. */
  ghost predicate Positive(items: seq<Item>) {
    forall i :: 0 <= i < |items| ==> items[i].quantity > 0
  }

  ghost predicate Sorted(items: seq<Item>) {
    forall i, j :: 0 <= i <= j < |items| ==> items[i].product <= items[j].product
  }

  /** `sorted(items, key=product id)`: stable, by insertion from the right. */
  function InsertItem(item: Item, items: seq<Item>): seq<Item> {
    if items == [] || item.product <= items[0].product then [item] + items
    else [items[0]] + InsertItem(item, items[1..])
  }

  function SortById(items: seq<Item>): seq<Item> {
    if items == [] then [] else InsertItem(items[0], SortById(items[1..]))
  }

  lemma {:induction false} InsertKeeps(item: Item, items: seq<Item>)
    requires Sorted(items)
    ensures Sorted(InsertItem(item, items))
    ensures |InsertItem(item, items)| == |items| + 1
    ensures InsertItem(item, items)[0] == item || (items != [] && InsertItem(item, items)[0] == items[0])
    decreases |items|
  {
    if items != [] && item.product > items[0].product {
      InsertKeeps(item, items[1..]);
    }
  }

  lemma {:induction false} InsertAdds(item: Item, items: seq<Item>)
    ensures multiset(InsertItem(item, items)) == multiset(items) + multiset{item}
    decreases |items|
  {
    if items == [] || item.product <= items[0].product {
      assert multiset([item] + items) == multiset{item} + multiset(items);
    } else {
      InsertAdds(item, items[1..]);
      assert items == [items[0]] + items[1..];
    }
  }

  lemma {:induction false} SortKeeps(items: seq<Item>)
    ensures Sorted(SortById(items)) && multiset(SortById(items)) == multiset(items)
    ensures |SortById(items)| == |items|
    decreases |items|
  {
    if items != [] {
      SortKeeps(items[1..]);
      InsertKeeps(items[0], SortById(items[1..]));
      InsertAdds(items[0], SortById(items[1..]));
      assert items == [items[0]] + items[1..];
    }
  }

  lemma SortMembers(items: seq<Item>)
    ensures forall item :: item in SortById(items) <==> item in items
    ensures Positive(items) ==> Positive(SortById(items))
  {
    SortKeeps(items);
    forall item ensures item in SortById(items) <==> item in items {
      assert item in SortById(items) <==> item in multiset(SortById(items));
      assert item in items <==> item in multiset(items);
    }
    assert forall i :: 0 <= i < |SortById(items)| ==> SortById(items)[i] in SortById(items);
  }

  /** One row: a missing product stops a reserve and is skipped by a release. */
  function ApplyOne(kind: Kind, rows: map<int, int>, item: Item): Change {
    if item.product !in rows then
      if kind == Reserving then Refused(NotFound(item.product)) else Changed(rows)
    else if kind == Releasing then Changed(rows[item.product := rows[item.product] + item.quantity])
    else if rows[item.product] < item.quantity then Refused(Insufficient(item.product))
    else Changed(rows[item.product := rows[item.product] - item.quantity])
  }

  /** The rows one after the other, stopping at the first that cannot be changed. */
  function ApplyItems(kind: Kind, rows: map<int, int>, items: seq<Item>): Change {
    if items == [] then Changed(rows)
    else
      var before := ApplyItems(kind, rows, items[..|items| - 1]);
      if before.Refused? then before else ApplyOne(kind, before.rows, items[|items| - 1])
  }

  /** All that the items ask of one product, however often it is repeated. */
  function Total(items: seq<Item>, product: int): int {
    if items == [] then 0
    else Total(items[..|items| - 1], product)
         + if items[|items| - 1].product == product then items[|items| - 1].quantity else 0
  }

  function Signed(kind: Kind, amount: int): int {
    if kind == Reserving then -amount else amount
  }

  lemma {:induction false} TotalNotNegative(items: seq<Item>, n: nat, product: int)
    requires Positive(items) && n <= |items|
    ensures 0 <= Total(items[..n], product) <= Total(items, product)
    ensures (forall i :: 0 <= i < |items| ==> items[i].product != product) <==> Total(items, product) == 0
    decreases |items|
  {
    if items != [] {
      var shorter := items[..|items| - 1];
      if n == |items| {
        TotalNotNegative(shorter, n - 1, product);
        assert items[..n] == items;
      } else {
        TotalNotNegative(shorter, n, product);
        assert shorter[..n] == items[..n];
      }
      assert forall i :: 0 <= i < |shorter| ==> shorter[i] == items[i];
    }
  }

  /** Every product asked for exists and has enough for all that is asked of it. */
  ghost predicate CanReserve(rows: map<int, int>, items: seq<Item>) {
    forall i :: 0 <= i < |items| ==>
      items[i].product in rows && Total(items, items[i].product) <= rows[items[i].product]
  }

  ghost predicate MovedBy(kind: Kind, rows: map<int, int>, items: seq<Item>, rows': map<int, int>) {
    && rows'.Keys == rows.Keys
    && forall p :: p in rows ==> rows'[p] == rows[p] + Signed(kind, Total(items, p))
  }

  lemma CanReserveOneMore(rows: map<int, int>, items: seq<Item>)
    requires Positive(items) && items != []
    ensures var last := items[|items| - 1];
            CanReserve(rows, items) <==>
            CanReserve(rows, items[..|items| - 1]) && last.product in rows
            && Total(items, last.product) <= rows[last.product]
  {
    var shorter := items[..|items| - 1];
    assert forall i :: 0 <= i < |shorter| ==> shorter[i] == items[i];
    forall i | 0 <= i < |shorter| ensures Total(shorter, items[i].product) <= Total(items, items[i].product) {
      TotalNotNegative(items, |shorter|, items[i].product);
    }
  }

  /** All or nothing, exactly when: a reserve goes through if and only if every product exists
      and covers the sum of its lines, and then every product moves by exactly that sum; a
      release always goes through. */
  lemma {:induction false} ItemsMeaning(kind: Kind, rows: map<int, int>, items: seq<Item>)
    requires Positive(items)
    ensures ApplyItems(kind, rows, items).Changed? <==> kind == Releasing || CanReserve(rows, items)
    ensures ApplyItems(kind, rows, items).Changed? ==> MovedBy(kind, rows, items, ApplyItems(kind, rows, items).rows)
    decreases |items|
  {
    if items != [] {
      ItemsMeaning(kind, rows, items[..|items| - 1]);
      CanReserveOneMore(rows, items);
    }
  }

  lemma {:induction false} TotalOfMultiset(a: seq<Item>, b: seq<Item>, product: int)
    requires multiset(a) == multiset(b)
    ensures Total(a, product) == Total(b, product)
    decreases |a|
  {
    if a == [] {
      assert |multiset(b)| == 0;
      assert b == [];
    } else {
      var x := a[|a| - 1];
      assert x in multiset(b);
      var k :| 0 <= k < |b| && b[k] == x;
      assert a == a[..|a| - 1] + [x];
      assert b == b[..k] + [x] + b[k + 1..];
      assert multiset(a[..|a| - 1]) == multiset(a) - multiset{x};
      assert multiset(b[..k] + b[k + 1..]) == multiset(b) - multiset{x};
      TotalOfMultiset(a[..|a| - 1], b[..k] + b[k + 1..], product);
      TotalWithout(b, k, product);
    }
  }

  lemma {:induction false} TotalWithout(items: seq<Item>, k: nat, product: int)
    requires k < |items|
    ensures Total(items, product) == Total(items[..k] + items[k + 1..], product)
                                     + if items[k].product == product then items[k].quantity else 0
    decreases |items|
  {
    var shorter := items[..|items| - 1];
    if k == |items| - 1 {
      assert items[..k] + items[k + 1..] == shorter;
    } else {
      TotalWithout(shorter, k, product);
      var rest := items[..k] + items[k + 1..];
      assert rest[..|rest| - 1] == shorter[..k] + shorter[k + 1..];
    }
  }

  lemma CanReserveReordered(rows: map<int, int>, a: seq<Item>, b: seq<Item>)
    requires multiset(a) == multiset(b) && CanReserve(rows, a)
    ensures CanReserve(rows, b)
  {
    forall i | 0 <= i < |b| ensures b[i].product in rows && Total(b, b[i].product) <= rows[b[i].product] {
      assert b[i] in multiset(a);
      var j :| 0 <= j < |a| && a[j] == b[i];
      TotalOfMultiset(a, b, b[i].product);
    }
  }

  /** The order of the lines, and so the sorting, changes neither the verdict nor the stock. */
  lemma OrderIrrelevant(kind: Kind, rows: map<int, int>, a: seq<Item>, b: seq<Item>)
    requires Positive(a) && Positive(b) && multiset(a) == multiset(b)
    ensures ApplyItems(kind, rows, a).Changed? == ApplyItems(kind, rows, b).Changed?
    ensures ApplyItems(kind, rows, a).Changed? ==> ApplyItems(kind, rows, a) == ApplyItems(kind, rows, b)
  {
    ItemsMeaning(kind, rows, a);
    ItemsMeaning(kind, rows, b);
    if CanReserve(rows, a) {
      CanReserveReordered(rows, a, b);
    } else if CanReserve(rows, b) {
      CanReserveReordered(rows, b, a);
    }
    if ApplyItems(kind, rows, a).Changed? {
      var x, y := ApplyItems(kind, rows, a).rows, ApplyItems(kind, rows, b).rows;
      forall p | p in rows ensures x[p] == y[p] {
        TotalOfMultiset(a, b, p);
      }
      assert x == y;
    }
  }

  /** Compensation: releasing what was reserved restores every row. */
  lemma ReleaseUndoesReserve(rows: map<int, int>, items: seq<Item>)
    requires Positive(items) && ApplyItems(Reserving, rows, items).Changed?
    ensures ApplyItems(Releasing, ApplyItems(Reserving, rows, items).rows, items) == Changed(rows)
  {
    ItemsMeaning(Reserving, rows, items);
    var held := ApplyItems(Reserving, rows, items).rows;
    ItemsMeaning(Releasing, held, items);
    var back := ApplyItems(Releasing, held, items).rows;
    assert forall p :: p in rows ==> back[p] == rows[p];
    assert back == rows;
  }

  /** The product asks for nothing that the rows cannot give. */
  ghost predicate Served(rows: map<int, int>, items: seq<Item>, product: int) {
    Total(items, product) == 0 || (product in rows && Total(items, product) <= rows[product])
  }

  lemma {:induction false} SortedTail(items: seq<Item>, n: nat, product: int)
    requires Sorted(items) && n < |items| && product < items[n].product
    ensures Total(items, product) == Total(items[..n], product)
    decreases |items|
  {
    var shorter := items[..|items| - 1];
    if n == |shorter| {
      assert items[..n] == shorter;
    } else {
      assert shorter[..n] == items[..n];
      SortedTail(shorter, n, product);
    }
  }

  /** Which refusal is reported: it names the least product that cannot be served, as missing
      or as short. */
  lemma {:induction false} RefusalIsTheFirst(rows: map<int, int>, items: seq<Item>)
    requires Positive(items) && Sorted(items) && ApplyItems(Reserving, rows, items).Refused?
    ensures var why := ApplyItems(Reserving, rows, items).why;
            && !Served(rows, items, why.product) && (why.NotFound? <==> why.product !in rows)
            && forall p :: p < why.product ==> Served(rows, items, p)
    decreases |items|
  {
    var shorter, last := items[..|items| - 1], items[|items| - 1];
    TotalNotNegative(items, |shorter|, last.product);
    if ApplyItems(Reserving, rows, shorter).Refused? {
      var why := ApplyItems(Reserving, rows, shorter).why;
      RefusalIsTheFirst(rows, shorter);
      TotalNotNegative(items, |shorter|, why.product);
      TotalNotNegative(shorter, |shorter|, why.product);
      var k :| 0 <= k < |shorter| && shorter[k].product == why.product;
      assert items[k] == shorter[k] && items[k].product <= last.product;
      forall p | p < why.product ensures Served(rows, items, p) {
        SortedTail(items, |shorter|, p);
        assert Served(rows, shorter, p);
      }
    } else {
      ItemsMeaning(Reserving, rows, shorter);
      forall p | p < last.product ensures Served(rows, items, p) {
        SortedTail(items, |shorter|, p);
        TotalNotNegative(shorter, |shorter|, p);
        if k :| 0 <= k < |shorter| && shorter[k].product == p {
          assert CanReserve(rows, shorter);
        }
      }
    }
  }

  ghost predicate NotNegative(rows: map<int, int>) {
    forall p :: p in rows ==> rows[p] >= 0
  }

  /** Stock never goes below zero, repeated products included. */
  lemma {:induction false} StaysNotNegative(kind: Kind, rows: map<int, int>, items: seq<Item>)
    requires Positive(items) && NotNegative(rows) && ApplyItems(kind, rows, items).Changed?
    ensures NotNegative(ApplyItems(kind, rows, items).rows)
    decreases |items|
  {
    if items != [] {
      StaysNotNegative(kind, rows, items[..|items| - 1]);
    }
  }

  datatype PricedLine = PricedLine(product: int, quantity: int, cents: int)

  /** The lines of a reserve with the unit prices the reply carries. */
  function Priced(prices: map<int, int>, items: seq<Item>): seq<PricedLine> {
    if items == [] then []
    else
      var last := items[|items| - 1];
      Priced(prices, items[..|items| - 1])
      + [PricedLine(last.product, last.quantity, if last.product in prices then prices[last.product] else 0)]
  }

  /** One line of the reply for each line of the request, in order, at the product's own price. */
  lemma {:induction false} PricedMeaning(prices: map<int, int>, items: seq<Item>)
    ensures |Priced(prices, items)| == |items|
    ensures forall i :: 0 <= i < |items| && items[i].product in prices ==>
              Priced(prices, items)[i] == PricedLine(items[i].product, items[i].quantity, prices[items[i].product])
    decreases |items|
  {
    if items != [] {
      PricedMeaning(prices, items[..|items| - 1]);
    }
  }

  function Products(items: seq<Item>): set<int> {
    if items == [] then {} else Products(items[..|items| - 1]) + {items[|items| - 1].product}
  }

  /** What one more line adds to each of the three. */
  lemma NextLine(kind: Kind, rows: map<int, int>, prices: map<int, int>, items: seq<Item>, n: nat)
    requires n < |items|
    ensures Products(items[..n + 1]) == Products(items[..n]) + {items[n].product}
    ensures items[n].product in prices ==>
              Priced(prices, items[..n + 1])
              == Priced(prices, items[..n]) + [PricedLine(items[n].product, items[n].quantity, prices[items[n].product])]
    ensures ApplyItems(kind, rows, items[..n]).Changed? ==>
              ApplyItems(kind, rows, items[..n + 1]) == ApplyOne(kind, ApplyItems(kind, rows, items[..n]).rows, items[n])
  {
    assert items[..n + 1][..n] == items[..n];
  }

  /** The product table as one session sees it while it alone holds the rows. */
  class ProductTable {
    var stock: map<int, int>
    var prices: map<int, int>
    var cachedKeys: set<int>

    ghost predicate Valid()
      reads this
    {
      prices.Keys == stock.Keys
    }

    /** reserve_stock: the rows in id order; any refusal leaves the table as it was, although
        cache entries of the rows passed so far are gone. */
    method ReserveStock(items: seq<Item>) returns (reserved: seq<PricedLine>, refusal: Option<Refusal>)
      requires Valid()
      modifies `stock, `cachedKeys
      ensures Valid()
      ensures refusal.None? ==> Changed(stock) == ApplyItems(Reserving, old(stock), SortById(items))
      ensures refusal.None? ==> reserved == Priced(prices, SortById(items)) && Products(SortById(items)) <= prices.Keys
      ensures refusal.None? ==>
                |reserved| == |items| == |SortById(items)|
                && forall i :: 0 <= i < |items| ==>
                     reserved[i].product == SortById(items)[i].product && reserved[i].quantity == SortById(items)[i].quantity
                     && reserved[i].product in prices && reserved[i].cents == prices[reserved[i].product]
      ensures refusal.None? ==> cachedKeys == old(cachedKeys) - Products(SortById(items))
      ensures refusal.Some? ==> ApplyItems(Reserving, old(stock), SortById(items)) == Refused(refusal.value)
      ensures refusal.Some? ==> stock == old(stock)
                                && old(cachedKeys) - Products(SortById(items)) <= cachedKeys <= old(cachedKeys)
    {
      var lines := SortById(items);
      var working;
      working, reserved, refusal := TakeRows(lines);
      if refusal.None? {
        AllPriced(lines, prices, items);
        stock := working;
      }
    }

    /** The loop of reserve_stock, on the session's own copies of the rows. */
    method TakeRows(lines: seq<Item>) returns (working: map<int, int>, reserved: seq<PricedLine>, refusal: Option<Refusal>)
      requires Valid()
      modifies `cachedKeys
      ensures Valid()
      ensures refusal.None? ==> ApplyItems(Reserving, stock, lines) == Changed(working) && working.Keys == stock.Keys
      ensures refusal.None? ==> reserved == Priced(prices, lines) && Products(lines) <= prices.Keys
      ensures refusal.None? ==> cachedKeys == old(cachedKeys) - Products(lines)
      ensures refusal.Some? ==> ApplyItems(Reserving, stock, lines) == Refused(refusal.value) && reserved == []
      ensures refusal.Some? ==> old(cachedKeys) - Products(lines) <= cachedKeys <= old(cachedKeys)
    {
      working, reserved := stock, [];
      for i := 0 to |lines|
        invariant Valid()
        invariant ApplyItems(Reserving, stock, lines[..i]) == Changed(working) && working.Keys == stock.Keys
        invariant reserved == Priced(prices, lines[..i]) && Products(lines[..i]) <= prices.Keys
        invariant cachedKeys == old(cachedKeys) - Products(lines[..i])
      {
        var item := lines[i];
        NextLine(Reserving, stock, prices, lines, i);
        ProductsGrow(lines, i);
        if item.product !in working {
          RefusalStands(Reserving, stock, lines, i + 1);
          return working, [], Some(NotFound(item.product));
        }
        if working[item.product] < item.quantity {
          RefusalStands(Reserving, stock, lines, i + 1);
          return working, [], Some(Insufficient(item.product));
        }
        working := working[item.product := working[item.product] - item.quantity];
        reserved := reserved + [PricedLine(item.product, item.quantity, prices[item.product])];
        cachedKeys := cachedKeys - {item.product};
      }
      assert lines[..|lines|] == lines;
      refusal := None;
    }

    /** release_stock: give back what rows are still there, silently skip the others. */
    method ReleaseStock(items: seq<Item>)
      requires Valid()
      modifies `stock, `cachedKeys
      ensures Valid()
      ensures Changed(stock) == ApplyItems(Releasing, old(stock), SortById(items))
      ensures cachedKeys == old(cachedKeys) - (Products(SortById(items)) * old(stock).Keys)
    {
      var lines := SortById(items);
      var working := stock;
      for i := 0 to |lines|
        invariant Valid() && stock == old(stock)
        invariant ApplyItems(Releasing, stock, lines[..i]) == Changed(working) && working.Keys == stock.Keys
        invariant cachedKeys == old(cachedKeys) - (Products(lines[..i]) * stock.Keys)
      {
        var item := lines[i];
        NextLine(Releasing, stock, prices, lines, i);
        if item.product !in working {
          continue;
        }
        working := working[item.product := working[item.product] + item.quantity];
        cachedKeys := cachedKeys - {item.product};
      }
      assert lines[..|lines|] == lines;
      stock := working;
    }
  }

  lemma AllPriced(lines: seq<Item>, prices: map<int, int>, items: seq<Item>)
    requires lines == SortById(items) && Products(lines) <= prices.Keys
    ensures |Priced(prices, lines)| == |items| == |lines|
    ensures forall i :: 0 <= i < |items| ==>
              lines[i].product in prices
              && Priced(prices, lines)[i] == PricedLine(lines[i].product, lines[i].quantity, prices[lines[i].product])
  {
    SortKeeps(items);
    PricedMeaning(prices, lines);
    forall i | 0 <= i < |lines| ensures lines[i].product in prices {
      ProductsMeaning(lines, lines[i].product);
    }
  }

  lemma {:induction false} ProductsMeaning(items: seq<Item>, product: int)
    ensures product in Products(items) <==> exists i :: 0 <= i < |items| && items[i].product == product
    ensures product !in Products(items) ==> Total(items, product) == 0
    decreases |items|
  {
    if items != [] {
      var shorter := items[..|items| - 1];
      ProductsMeaning(shorter, product);
      if product in Products(shorter) {
        var i :| 0 <= i < |shorter| && shorter[i].product == product;
        assert items[i].product == product;
      }
      assert forall i :: 0 <= i < |shorter| ==> shorter[i] == items[i];
      assert items[|items| - 1].product == product ==> product in Products(items);
    }
  }

  lemma {:induction false} ProductsGrow(items: seq<Item>, n: nat)
    requires n <= |items|
    ensures Products(items[..n]) <= Products(items)
    decreases |items|
  {
    if n < |items| {
      assert items[..|items| - 1][..n] == items[..n];
      ProductsGrow(items[..|items| - 1], n);
    } else {
      assert items[..n] == items;
    }
  }

  /** Once a row refuses, the whole request is refused for that reason. */
  lemma {:induction false} RefusalStands(kind: Kind, rows: map<int, int>, items: seq<Item>, n: nat)
    requires n <= |items| && ApplyItems(kind, rows, items[..n]).Refused?
    ensures ApplyItems(kind, rows, items) == ApplyItems(kind, rows, items[..n])
    decreases |items| - n
  {
    if n == |items| {
      assert items[..n] == items;
    } else {
      assert items[..n + 1][..n] == items[..n];
      RefusalStands(kind, rows, items, n + 1);
    }
  }
}
