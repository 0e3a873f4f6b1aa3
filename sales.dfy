/** The sales-aggregation path of the RAG service: `querySalesData`,
    `getTopCustomersByPurchaseAmount` and `getSalesSummary`, over a snapshot
    of the "sales" collection. Money is in integer cents; the aggregates are
    returned as values instead of rendered text. */
module Sales {
  import opened Strings
  import opened Ranking

  datatype Customer = Customer(id: string, name: string)
  datatype Item = Item(name: string)

  /** A sale: who bought, the order total in cents, and the items. */
  datatype SaleRecord = SaleRecord(customer: Customer, total: int, items: seq<Item>)

  /** One customer's aggregate: the name of their first record, the sum of
      their totals, and the distinct product names in first-seen order. */
  datatype CustomerTotal = CustomerTotal(id: string, name: string, total: int, products: seq<string>)

  datatype SalesSummary = SalesSummary(revenue: int, orders: nat, uniqueCustomers: nat)

  /** The three answers `querySalesData` can give. */
  datatype SalesAnswer =
    | NoSalesData
    | TopCustomersReport(customers: seq<CustomerTotal>)
    | SummaryReport(summary: SalesSummary)

  const NoSalesDataMessage := "No sales data found in the database. Please ensure sales data has been loaded."
  const TopCount := 3

  /** The customer ids of `rs` in order of first appearance (the key order of the `Map`). */
  function CustomerIds(rs: seq<SaleRecord>): seq<string>
  {
    if rs == [] then []
    else
      var ids := CustomerIds(rs[..|rs| - 1]);
      var id := rs[|rs| - 1].customer.id;
      if id in ids then ids else ids + [id]
  }

  /** The sum of the totals of the records of customer `id`. */
  function TotalFor(rs: seq<SaleRecord>, id: string): int
  {
    if rs == [] then 0
    else TotalFor(rs[..|rs| - 1], id) + (if rs[|rs| - 1].customer.id == id then rs[|rs| - 1].total else 0)
  }

  /** The name on the first record of customer `id`. */
  function NameFor(rs: seq<SaleRecord>, id: string): string
  {
    if rs == [] then ""
    else
      var r := rs[|rs| - 1];
      if r.customer.id == id && id !in CustomerIds(rs[..|rs| - 1]) then r.customer.name
      else NameFor(rs[..|rs| - 1], id)
  }

  /** Add the names of `items` to the set `ps`, keeping insertion order. */
  function AddProducts(ps: seq<string>, items: seq<Item>): seq<string>
  {
    if items == [] then ps
    else
      var qs := AddProducts(ps, items[..|items| - 1]);
      var name := items[|items| - 1].name;
      if name in qs then qs else qs + [name]
  }

  /** The distinct product names bought by customer `id`, first-seen first. */
  function ProductsFor(rs: seq<SaleRecord>, id: string): seq<string>
  {
    if rs == [] then []
    else
      var r := rs[|rs| - 1];
      if r.customer.id == id then AddProducts(ProductsFor(rs[..|rs| - 1], id), r.items)
      else ProductsFor(rs[..|rs| - 1], id)
  }

  function Entry(rs: seq<SaleRecord>, id: string): CustomerTotal
  {
    CustomerTotal(id, NameFor(rs, id), TotalFor(rs, id), ProductsFor(rs, id))
  }

  /** One aggregate per customer, in first-appearance order. */
  function Aggregate(rs: seq<SaleRecord>): (a: seq<CustomerTotal>)
    ensures |a| == |CustomerIds(rs)|
  {
    var ids := CustomerIds(rs);
    seq(|ids|, k requires 0 <= k < |ids| => Entry(rs, ids[k]))
  }

  function TotalKey(c: CustomerTotal): real
  {
    c.total as real
  }

  /** The report of `getTopCustomersByPurchaseAmount`: the aggregates,
      stably sorted by descending total, cut at three. */
  function TopCustomers(rs: seq<SaleRecord>): seq<CustomerTotal>
  {
    Take(SortDesc(Aggregate(rs), TotalKey), TopCount)
  }

  lemma {:induction false} AbsentCustomer(rs: seq<SaleRecord>, id: string)
    requires id !in CustomerIds(rs)
    ensures TotalFor(rs, id) == 0 && ProductsFor(rs, id) == []
  {
    if rs != [] {
      AbsentCustomer(rs[..|rs| - 1], id);
    }
  }

  /** `getTopCustomersByPurchaseAmount`: group the records in a map keyed by
      customer id, updating each entry's total and product set in place, then
      sort the entries by descending total and keep the first three. */
  method GetTopCustomersByPurchaseAmount(records: seq<SaleRecord>) returns (top: seq<CustomerTotal>)
    ensures top == TopCustomers(records)
  {
    var customerTotals: map<string, CustomerTotal> := map[];
    var order: seq<string> := [];
    for i := 0 to |records|
      invariant order == CustomerIds(records[..i])
      invariant forall id :: id in customerTotals <==> id in order
      invariant forall id :: id in customerTotals ==> customerTotals[id] == Entry(records[..i], id)
    {
      var record := records[i];
      var customerId := record.customer.id;
      assert records[..i + 1][..i] == records[..i];
      if customerId !in customerTotals {
        AbsentCustomer(records[..i], customerId);
        customerTotals := customerTotals[customerId := CustomerTotal(customerId, record.customer.name, 0, [])];
        order := order + [customerId];
      }
      var customer := customerTotals[customerId];
      customer := customer.(total := customer.total + record.total);
      var products := customer.products;
      for j := 0 to |record.items|
        invariant products == AddProducts(customer.products, record.items[..j])
      {
        assert record.items[..j + 1][..j] == record.items[..j];
        if record.items[j].name !in products {
          products := products + [record.items[j].name];
        }
      }
      assert record.items[..|record.items|] == record.items;
      customerTotals := customerTotals[customerId := customer.(products := products)];
    }
    assert records[..|records|] == records;
    var entries := seq(|order|, k requires 0 <= k < |order| => customerTotals[order[k]]);
    assert entries == Aggregate(records);
    top := Take(SortDesc(entries, TotalKey), TopCount);
  }

  lemma {:induction false} CustomerIdsDistinct(rs: seq<SaleRecord>)
    ensures Distinct(CustomerIds(rs))
    ensures forall id :: id in CustomerIds(rs) <==> exists r :: r in rs && r.customer.id == id
    ensures |CustomerIds(rs)| <= |rs|
  {
    if rs != [] {
      var init := rs[..|rs| - 1];
      CustomerIdsDistinct(init);
      assert rs == init + [rs[|rs| - 1]];
      forall id ensures id in CustomerIds(rs) <==> exists r :: r in rs && r.customer.id == id {
        if id in CustomerIds(init) {
          var r :| r in init && r.customer.id == id;
          assert r in rs;
        }
        if r :| r in rs && r.customer.id == id {
          if r != rs[|rs| - 1] {
            assert r in init;
          }
        }
      }
    }
  }

  lemma AggregateEntries(rs: seq<SaleRecord>)
    ensures forall c :: c in Aggregate(rs) ==> c == Entry(rs, c.id) && c.id in CustomerIds(rs)
    ensures Distinct(Aggregate(rs))
  {
    CustomerIdsDistinct(rs);
    var a := Aggregate(rs);
    forall i, j | 0 <= i < j < |a| ensures a[i] != a[j] {
      assert a[i].id == CustomerIds(rs)[i];
      assert a[j].id == CustomerIds(rs)[j];
    }
  }

  /** The report names min(3, number of customers) distinct customers, in
      non-increasing order of total. */
  lemma TopCustomersShape(records: seq<SaleRecord>)
    ensures var top := TopCustomers(records);
      && |top| == (if |CustomerIds(records)| < TopCount then |CustomerIds(records)| else TopCount)
      && SortedDesc(top, TotalKey)
      && Distinct(top)
  {
    var a := Aggregate(records);
    var sorted := SortDesc(a, TotalKey);
    AggregateEntries(records);
    SortDescCorrect(a, TotalKey);
    TakeOfSorted(sorted, TopCount, TotalKey);
    DistinctPermutation(a, sorted);
  }

  /** Each reported customer appears in the records, and its total is the
      sum of the totals of that customer's records. */
  lemma TopCustomersTotals(records: seq<SaleRecord>)
    ensures forall c :: c in TopCustomers(records) ==>
              c.id in CustomerIds(records) && c.total == TotalFor(records, c.id)
  {
    var a := Aggregate(records);
    var sorted := SortDesc(a, TotalKey);
    AggregateEntries(records);
    SortDescCorrect(a, TotalKey);
    forall c | c in TopCustomers(records) ensures c.id in CustomerIds(records) && c.total == TotalFor(records, c.id) {
      assert c in sorted;
      assert c in multiset(a);
    }
  }

  /** A customer left out of the report has a total no larger than any
      reported one. */
  lemma TopCustomersAreTheLargest(records: seq<SaleRecord>)
    ensures forall id, i :: id in CustomerIds(records) && (forall c :: c in TopCustomers(records) ==> c.id != id)
                            && 0 <= i < |TopCustomers(records)| ==>
              TotalFor(records, id) <= TopCustomers(records)[i].total
  {
    var a := Aggregate(records);
    var sorted := SortDesc(a, TotalKey);
    var top := TopCustomers(records);
    SortDescCorrect(a, TotalKey);
    TakeOfSorted(sorted, TopCount, TotalKey);
    forall id, i | id in CustomerIds(records) && (forall c :: c in top ==> c.id != id) && 0 <= i < |top|
      ensures TotalFor(records, id) <= top[i].total
    {
      var k :| 0 <= k < |CustomerIds(records)| && CustomerIds(records)[k] == id;
      var e := a[k];
      assert e.id == id;
      assert e in multiset(sorted);
      assert e !in top;
      assert TotalKey(e) <= TotalKey(top[i]);
    }
  }

  /** `reduce((sum, record) => sum + record.total, 0)`. */
  function Revenue(rs: seq<SaleRecord>): int
  {
    if rs == [] then 0 else Revenue(rs[..|rs| - 1]) + rs[|rs| - 1].total
  }

  /** `getSalesSummary`: revenue, number of orders, number of distinct customer ids. */
  function GetSalesSummary(records: seq<SaleRecord>): (s: SalesSummary)
    ensures s.orders == |records|
    ensures s.uniqueCustomers == |CustomerIds(records)| <= s.orders
  {
    UniqueCustomerCount(records);
    SalesSummary(Revenue(records), |records|, |set r | r in records :: r.customer.id|)
  }

  /** The distinct customer ids of the records are the `Map` keys, so there
      are no more of them than records. */
  lemma UniqueCustomerCount(records: seq<SaleRecord>)
    ensures |set r | r in records :: r.customer.id| == |CustomerIds(records)| <= |records|
  {
    var ids := CustomerIds(records);
    CustomerIdsDistinct(records);
    assert (set r | r in records :: r.customer.id) == set id | id in ids;
    DistinctCardinality(ids);
  }

  /** The sum, over the customers `ids`, of each one's total. */
  function SumOfTotals(rs: seq<SaleRecord>, ids: seq<string>): int
  {
    if ids == [] then 0 else TotalFor(rs, ids[0]) + SumOfTotals(rs, ids[1..])
  }

  lemma {:induction false} SumOfTotalsSnoc(rs: seq<SaleRecord>, ids: seq<string>, id: string)
    ensures SumOfTotals(rs, ids + [id]) == SumOfTotals(rs, ids) + TotalFor(rs, id)
  {
    if ids != [] {
      SumOfTotalsSnoc(rs, ids[1..], id);
      assert (ids + [id])[1..] == ids[1..] + [id];
    }
  }

  lemma {:induction false} SumOfTotalsAddRecord(rs: seq<SaleRecord>, r: SaleRecord, ids: seq<string>)
    requires Distinct(ids)
    ensures SumOfTotals(rs + [r], ids) == SumOfTotals(rs, ids) + (if r.customer.id in ids then r.total else 0)
  {
    if ids != [] {
      SumOfTotalsAddRecord(rs, r, ids[1..]);
      assert (rs + [r])[..|rs + [r]| - 1] == rs;
      assert ids == [ids[0]] + ids[1..];
      assert ids[0] !in ids[1..];
    }
  }

  lemma {:induction false} RevenueIsSumOfCustomerTotals(rs: seq<SaleRecord>)
    ensures Revenue(rs) == SumOfTotals(rs, CustomerIds(rs))
  {
    if rs != [] {
      var init := rs[..|rs| - 1];
      var r := rs[|rs| - 1];
      var ids := CustomerIds(init);
      RevenueIsSumOfCustomerTotals(init);
      CustomerIdsDistinct(init);
      assert rs == init + [r];
      SumOfTotalsAddRecord(init, r, ids);
      if r.customer.id !in ids {
        SumOfTotalsSnoc(rs, ids, r.customer.id);
        AbsentCustomer(init, r.customer.id);
        SumOfTotalsAddRecord(init, r, ids);
      }
    }
  }

  /** The summary counts one order per record and at most as many distinct
      customers as orders (exactly the customers the top report ranks), and
      its revenue is the sum of the per-customer totals. */
  lemma SalesSummaryCounts(records: seq<SaleRecord>)
    ensures var s := GetSalesSummary(records);
      && s.orders == |records|
      && s.uniqueCustomers == |CustomerIds(records)|
      && s.uniqueCustomers <= s.orders
      && (|records| > 0 ==> s.uniqueCustomers > 0)
      && s.revenue == SumOfTotals(records, CustomerIds(records))
  {
    var ids := CustomerIds(records);
    CustomerIdsDistinct(records);
    RevenueIsSumOfCustomerTotals(records);
    if |records| > 0 {
      assert records[0] in records;
      assert records[0].customer.id in ids;
    }
  }

  lemma {:induction false} DistinctCardinality(ids: seq<string>)
    requires Distinct(ids)
    ensures |set id | id in ids| == |ids|
  {
    if ids != [] {
      var init := ids[..|ids| - 1];
      DistinctCardinality(init);
      assert ids == init + [ids[|ids| - 1]];
      assert (set id | id in ids) == (set id | id in init) + {ids[|ids| - 1]};
      assert ids[|ids| - 1] !in init;
    }
  }

  /** `querySalesData`: no records gives the fixed message; a query naming
      both "top" and "customer" gets the top-customers report; any other
      query gets the summary. */
  function QuerySalesData(query: string, records: seq<SaleRecord>): (a: SalesAnswer)
    ensures a == NoSalesData <==> |records| == 0
    ensures a.TopCustomersReport? ==> |a.customers| <= TopCount
    ensures a.SummaryReport? ==> a.summary.orders == |records|
  {
    if |records| == 0 then NoSalesData
    else if Contains(Lower(query), "top") && Contains(Lower(query), "customer") then TopCustomersReport(TopCustomers(records))
    else SummaryReport(GetSalesSummary(records))
  }

  /** The answer for each branch, with the guarantees of its report. */
  lemma SalesAnswerRouting(query: string, records: seq<SaleRecord>)
    ensures |records| == 0 <==> QuerySalesData(query, records) == NoSalesData
    ensures QuerySalesData(query, records).TopCustomersReport? <==>
              |records| > 0 && Contains(Lower(query), "top") && Contains(Lower(query), "customer")
    ensures QuerySalesData(query, records).TopCustomersReport? ==>
              var cs := QuerySalesData(query, records).customers;
              && 0 < |cs| <= TopCount
              && SortedDesc(cs, TotalKey)
              && forall c :: c in cs ==> c.total == TotalFor(records, c.id)
    ensures QuerySalesData(query, records).SummaryReport? ==>
              var s := QuerySalesData(query, records).summary;
              0 < s.uniqueCustomers <= s.orders == |records|
  {
    TopCustomersShape(records);
    TopCustomersTotals(records);
    SalesSummaryCounts(records);
    if |records| > 0 {
      CustomerIdsDistinct(records);
      assert records[0].customer.id in CustomerIds(records);
    }
  }
}
