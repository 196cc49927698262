/** The records the pages keep in memory and write to the store. Money is
    an integer number of minor currency units; instants are calendar
    readings. */
module Entities {
  import opened Common
  import opened Calendar

  datatype Customer = Customer(
    id: string,
    name: string,
    email: string,
    phone: string,
    address: string,
    createdAt: Instant)

  datatype Product = Product(
    id: string,
    articleNumber: string,
    name: string,
    cost: int,
    quantity: int,
    createdAt: Instant)

  /** One line of a sale. Name, article number and cost are copies taken
      when the line is added; they do not follow later product edits. */
  datatype SaleItem = SaleItem(
    productId: string,
    productName: string,
    articleNumber: string,
    quantity: int,
    sellPrice: int,
    costPrice: int,
    total: int)

  datatype Sale = Sale(
    id: string,
    customerId: string,
    customerName: string,
    items: seq<SaleItem>,
    totalAmount: int,
    totalCost: int,
    profit: int,
    date: Instant)

  /** The value of a number-typed form input: the empty string, or the
      number that parsing the typed text yields. */
  datatype Entry = Blank | Number(value: int)

  /** products.find((p) => p.id === id): the first product with that id. */
  function FindProduct(ps: seq<Product>, id: string): (r: Option<Product>)
    ensures r.Some? ==> r.value in ps && r.value.id == id
    ensures r.None? <==> forall p :: p in ps ==> p.id != id
    decreases |ps|
  {
    if ps == [] then None
    else if ps[0].id == id then Some(ps[0])
    else
      assert forall p :: p in ps <==> p == ps[0] || p in ps[1..];
      FindProduct(ps[1..], id)
  }

  /** The product found is the first one with that id: every product
      before it has another id. */
  lemma {:induction false} FindProductIsFirst(ps: seq<Product>, id: string)
    requires FindProduct(ps, id).Some?
    ensures exists i :: 0 <= i < |ps| && ps[i] == FindProduct(ps, id).value
                        && forall j :: 0 <= j < i ==> ps[j].id != id
    decreases |ps|
  {
    if ps[0].id == id {
      assert ps[0] == FindProduct(ps, id).value;
    } else {
      var rest := ps[1..];
      FindProductIsFirst(rest, id);
      var i :| 0 <= i < |rest| && rest[i] == FindProduct(rest, id).value
               && forall j :: 0 <= j < i ==> rest[j].id != id;
      assert ps[i + 1] == rest[i];
      forall j | 0 <= j < i + 1 ensures ps[j].id != id {
        if j > 0 { assert ps[j] == rest[j - 1]; }
      }
    }
  }

  /** customers.find((c) => c.id === id): the first customer with that id. */
  function FindCustomer(cs: seq<Customer>, id: string): (r: Option<Customer>)
    ensures r.Some? ==> r.value in cs && r.value.id == id
    ensures r.None? <==> forall c :: c in cs ==> c.id != id
    decreases |cs|
  {
    if cs == [] then None
    else if cs[0].id == id then Some(cs[0])
    else
      assert forall c :: c in cs <==> c == cs[0] || c in cs[1..];
      FindCustomer(cs[1..], id)
  }

  /** The customer found is the first one with that id. */
  lemma {:induction false} FindCustomerIsFirst(cs: seq<Customer>, id: string)
    requires FindCustomer(cs, id).Some?
    ensures exists i :: 0 <= i < |cs| && cs[i] == FindCustomer(cs, id).value
                        && forall j :: 0 <= j < i ==> cs[j].id != id
    decreases |cs|
  {
    if cs[0].id == id {
      assert cs[0] == FindCustomer(cs, id).value;
    } else {
      var rest := cs[1..];
      FindCustomerIsFirst(rest, id);
      var i :| 0 <= i < |rest| && rest[i] == FindCustomer(rest, id).value
               && forall j :: 0 <= j < i ==> rest[j].id != id;
      assert cs[i + 1] == rest[i];
      forall j | 0 <= j < i + 1 ensures cs[j].id != id {
        if j > 0 { assert cs[j] == rest[j - 1]; }
      }
    }
  }
}
