/** The key-value store behind the pages: three collections keyed by
    generated keys. push picks a key that is not yet used and stores the
    record with its id set to that key; update merges the given fields into
    the record at a key (creating it when absent, as the database does);
    remove deletes it; a listing returns every record once, in an order the
    caller may not rely on. Every write the pages issue (push, update,
    remove) is recorded in `log`, so that the order of a page's writes can
    be stated; reads change nothing and are not logged. Whether
    the backend accepts a write is the environment's choice, passed in as
    `ok`; a rejected write changes no record. */
module Store {
  import opened Common
  import opened Calendar
  import opened Entities

  datatype Collection = Customers | Products | Sales

  datatype Call =
    | Push(collection: Collection, key: string)
    | Update(collection: Collection, key: string)
    | Remove(collection: Collection, key: string)

  /** The fields an update sends; None leaves the stored field as it is. */
  datatype ProductPatch = ProductPatch(
    id: Option<string>,
    articleNumber: Option<string>,
    name: Option<string>,
    cost: Option<int>,
    quantity: Option<int>,
    createdAt: Option<Instant>)

  datatype CustomerPatch = CustomerPatch(
    id: Option<string>,
    name: Option<string>,
    email: Option<string>,
    phone: Option<string>,
    address: Option<string>,
    createdAt: Option<Instant>)

  function Pick<T>(o: Option<T>, current: T): T
  {
    if o.Some? then o.value else current
  }

  /** What a node that does not exist holds: none of the fields. */
  const NoInstant := Instant(0, 0, 0, 0)
  const BlankProduct := Product("", "", "", 0, 0, NoInstant)
  const BlankCustomer := Customer("", "", "", "", "", NoInstant)

  function MergeProduct(p: Product, u: ProductPatch): Product
  {
    Product(Pick(u.id, p.id), Pick(u.articleNumber, p.articleNumber), Pick(u.name, p.name),
            Pick(u.cost, p.cost), Pick(u.quantity, p.quantity), Pick(u.createdAt, p.createdAt))
  }

  function MergeCustomer(c: Customer, u: CustomerPatch): Customer
  {
    Customer(Pick(u.id, c.id), Pick(u.name, c.name), Pick(u.email, c.email),
             Pick(u.phone, c.phone), Pick(u.address, c.address), Pick(u.createdAt, c.createdAt))
  }

  /** The patch that sends every field of p (the spread `{...p}`). */
  function FullPatch(p: Product): ProductPatch
  {
    ProductPatch(Some(p.id), Some(p.articleNumber), Some(p.name), Some(p.cost), Some(p.quantity), Some(p.createdAt))
  }

  /** Sending every field replaces the stored record, whatever it held. */
  lemma FullPatchReplaces(current: Product, p: Product)
    ensures MergeProduct(current, FullPatch(p)) == p
  {
  }

  /** A product patch changes exactly the fields it names: a sent field
      takes the sent value, a field left out keeps the stored one. */
  lemma PatchChangesOnlyNamedFields(current: Product, u: ProductPatch)
    ensures var r := MergeProduct(current, u);
      && (u.id.Some? ==> r.id == u.id.value) && (u.id.None? ==> r.id == current.id)
      && (u.articleNumber.Some? ==> r.articleNumber == u.articleNumber.value)
      && (u.articleNumber.None? ==> r.articleNumber == current.articleNumber)
      && (u.name.Some? ==> r.name == u.name.value) && (u.name.None? ==> r.name == current.name)
      && (u.cost.Some? ==> r.cost == u.cost.value) && (u.cost.None? ==> r.cost == current.cost)
      && (u.quantity.Some? ==> r.quantity == u.quantity.value)
      && (u.quantity.None? ==> r.quantity == current.quantity)
      && (u.createdAt.Some? ==> r.createdAt == u.createdAt.value)
      && (u.createdAt.None? ==> r.createdAt == current.createdAt)
  {
  }

  /** The same for a customer patch. */
  lemma CustomerPatchChangesOnlyNamedFields(current: Customer, u: CustomerPatch)
    ensures var r := MergeCustomer(current, u);
      && (u.id.Some? ==> r.id == u.id.value) && (u.id.None? ==> r.id == current.id)
      && (u.name.Some? ==> r.name == u.name.value) && (u.name.None? ==> r.name == current.name)
      && (u.email.Some? ==> r.email == u.email.value) && (u.email.None? ==> r.email == current.email)
      && (u.phone.Some? ==> r.phone == u.phone.value) && (u.phone.None? ==> r.phone == current.phone)
      && (u.address.Some? ==> r.address == u.address.value)
      && (u.address.None? ==> r.address == current.address)
      && (u.createdAt.Some? ==> r.createdAt == u.createdAt.value)
      && (u.createdAt.None? ==> r.createdAt == current.createdAt)
  {
  }

  function ProductAt(m: map<string, Product>, key: string): Product
  {
    if key in m then m[key] else BlankProduct
  }

  function CustomerAt(m: map<string, Customer>, key: string): Customer
  {
    if key in m then m[key] else BlankCustomer
  }

  /** The collection after an accepted update of the record at key. */
  function PutProduct(m: map<string, Product>, key: string, u: ProductPatch): map<string, Product>
  {
    m[key := MergeProduct(ProductAt(m, key), u)]
  }

  function PutCustomer(m: map<string, Customer>, key: string, u: CustomerPatch): map<string, Customer>
  {
    m[key := MergeCustomer(CustomerAt(m, key), u)]
  }

  /** ks lists every key of m exactly once. */
  predicate Enumerates<V>(ks: seq<string>, m: map<string, V>)
  {
    (forall i, j :: 0 <= i < j < |ks| ==> ks[i] != ks[j])
    && (forall k :: k in m ==> k in ks)
    && (forall i :: 0 <= i < |ks| ==> ks[i] in m)
  }

  function ValuesAt<V>(m: map<string, V>, ks: seq<string>): (vs: seq<V>)
    requires forall i :: 0 <= i < |ks| ==> ks[i] in m
    ensures |vs| == |ks|
    ensures forall i :: 0 <= i < |ks| ==> vs[i] == m[ks[i]]
  {
    seq(|ks|, i requires 0 <= i < |ks| => m[ks[i]])
  }

  /** vs is what a full read of m returns: each record once, in some order. */
  ghost predicate Listing<V>(vs: seq<V>, m: map<string, V>)
  {
    exists ks :: Enumerates(ks, m) && vs == ValuesAt(m, ks)
  }

  lemma {:induction false} SeqOfKeys(s: set<string>) returns (ks: seq<string>)
    ensures forall i, j :: 0 <= i < j < |ks| ==> ks[i] != ks[j]
    ensures forall k :: k in s <==> k in ks
    decreases |s|
  {
    if s == {} {
      ks := [];
    } else {
      var k :| k in s;
      var rest := SeqOfKeys(s - {k});
      ks := [k] + rest;
      assert forall i :: 1 <= i < |ks| ==> ks[i] == rest[i - 1];
    }
  }

  /** Every map can be listed. */
  lemma ListingExists<V>(m: map<string, V>)
    ensures exists vs :: Listing(vs, m)
  {
    var ks := SeqOfKeys(m.Keys);
    assert Enumerates(ks, m);
    assert Listing(ValuesAt(m, ks), m);
  }

  /** A listing holds exactly the stored records. */
  lemma ListingHoldsStoredRecords<V>(vs: seq<V>, m: map<string, V>)
    requires Listing(vs, m)
    ensures |vs| == |m|
    ensures forall v :: v in vs <==> v in m.Values
  {
    var ks :| Enumerates(ks, m) && vs == ValuesAt(m, ks);
    DistinctKeysCount(ks, m);
    forall v ensures v in vs <==> v in m.Values {
      if v in vs {
        var i :| 0 <= i < |vs| && vs[i] == v;
        assert ks[i] in m;
      }
      if v in m.Values {
        var k :| k in m && m[k] == v;
        var i :| 0 <= i < |ks| && ks[i] == k;
        assert vs[i] == v;
      }
    }
  }

  lemma DistinctKeysCount<V>(ks: seq<string>, m: map<string, V>)
    requires Enumerates(ks, m)
    ensures |ks| == |m|
  {
    DistinctCount(ks, m.Keys);
  }

  /** A list of distinct elements is as long as the set of them. */
  lemma {:induction false} DistinctCount(ks: seq<string>, s: set<string>)
    requires forall i, j :: 0 <= i < j < |ks| ==> ks[i] != ks[j]
    requires forall k :: k in s <==> k in ks
    ensures |ks| == |s|
    decreases |ks|
  {
    if ks == [] {
      assert s == {};
    } else {
      var k, init := ks[|ks| - 1], ks[..|ks| - 1];
      forall x ensures x in s - {k} <==> x in init {
        if x in init {
          var i :| 0 <= i < |init| && init[i] == x;
          assert ks[i] == x;
        }
      }
      DistinctCount(init, s - {k});
    }
  }

  /** A key that m does not hold; the database generates one on every push. */
  method FreshKey<V>(m: map<string, V>) returns (key: string)
    ensures key !in m
  {
    var longer := FreshString(m.Keys);
    key :| key !in m;
  }

  lemma {:induction false} FreshString(s: set<string>) returns (k: string)
    ensures k !in s
    ensures forall x :: x in s ==> |x| < |k|
    decreases |s|
  {
    if s == {} {
      k := "-";
    } else {
      var e :| e in s;
      var k' := FreshString(s - {e});
      if |k'| > |e| {
        k := k';
      } else {
        k := k' + seq(|e| - |k'| + 1, _ => '-');
      }
    }
  }

  class Database {
    var customers: map<string, Customer>
    var products: map<string, Product>
    var sales: map<string, Sale>
    var log: seq<Call>

    constructor ()
      ensures customers == map[] && products == map[] && sales == map[] && log == []
    {
      customers, products, sales, log := map[], map[], map[], [];
    }

    /** addCustomer: push a new key, then set the record with id = key. */
    method AddCustomer(c: Customer, ok: bool) returns (key: string)
      modifies this`customers, this`log
      ensures key !in old(customers)
      ensures log == old(log) + [Push(Customers, key)]
      ensures customers == if ok then old(customers)[key := c.(id := key)] else old(customers)
    {
      key := FreshKey(customers);
      log := log + [Push(Customers, key)];
      if ok {
        customers := customers[key := c.(id := key)];
      }
    }

    /** updateCustomer: merge the given fields into the record at id. */
    method UpdateCustomer(id: string, u: CustomerPatch, ok: bool)
      modifies this`customers, this`log
      ensures log == old(log) + [Update(Customers, id)]
      ensures customers == if ok then PutCustomer(old(customers), id, u) else old(customers)
    {
      log := log + [Update(Customers, id)];
      if ok {
        customers := PutCustomer(customers, id, u);
      }
    }

    method RemoveCustomer(id: string, ok: bool)
      modifies this`customers, this`log
      ensures log == old(log) + [Remove(Customers, id)]
      ensures customers == if ok then old(customers) - {id} else old(customers)
    {
      log := log + [Remove(Customers, id)];
      if ok {
        customers := customers - {id};
      }
    }

    method AddProduct(p: Product, ok: bool) returns (key: string)
      modifies this`products, this`log
      ensures key !in old(products)
      ensures log == old(log) + [Push(Products, key)]
      ensures products == if ok then old(products)[key := p.(id := key)] else old(products)
    {
      key := FreshKey(products);
      log := log + [Push(Products, key)];
      if ok {
        products := products[key := p.(id := key)];
      }
    }

    method UpdateProduct(id: string, u: ProductPatch, ok: bool)
      modifies this`products, this`log
      ensures log == old(log) + [Update(Products, id)]
      ensures products == if ok then PutProduct(old(products), id, u) else old(products)
    {
      log := log + [Update(Products, id)];
      if ok {
        products := PutProduct(products, id, u);
      }
    }

    method RemoveProduct(id: string, ok: bool)
      modifies this`products, this`log
      ensures log == old(log) + [Remove(Products, id)]
      ensures products == if ok then old(products) - {id} else old(products)
    {
      log := log + [Remove(Products, id)];
      if ok {
        products := products - {id};
      }
    }

    method AddSale(s: Sale, ok: bool) returns (key: string)
      modifies this`sales, this`log
      ensures key !in old(sales)
      ensures log == old(log) + [Push(Sales, key)]
      ensures sales == if ok then old(sales)[key := s.(id := key)] else old(sales)
    {
      key := FreshKey(sales);
      log := log + [Push(Sales, key)];
      if ok {
        sales := sales[key := s.(id := key)];
      }
    }

    /** getCustomers / getProducts / getSales: every stored record once. */
    method ListCustomers() returns (cs: seq<Customer>)
      ensures Listing(cs, customers)
    {
      var all := SeqOfKeys(customers.Keys);
      assert Enumerates(all, customers);
      var ks :| Enumerates(ks, customers);
      assert Enumerates(ks, customers);
      cs := ValuesAt(customers, ks);
    }

    method ListProducts() returns (ps: seq<Product>)
      ensures Listing(ps, products)
    {
      var all := SeqOfKeys(products.Keys);
      assert Enumerates(all, products);
      var ks :| Enumerates(ks, products);
      assert Enumerates(ks, products);
      ps := ValuesAt(products, ks);
    }

    method ListSales() returns (ss: seq<Sale>)
      ensures Listing(ss, sales)
    {
      var all := SeqOfKeys(sales.Keys);
      assert Enumerates(all, sales);
      var ks :| Enumerates(ks, sales);
      assert Enumerates(ks, sales);
      ss := ValuesAt(sales, ks);
    }
  }
}
