/** The product catalogue page: the edit form, saving a product (an add
    for a new one, an update for the one being edited), deleting, the
    search over the list, and the stock badges. The clock reading used to
    stamp a new product and the store's acceptance of each write are
    parameters. */
module Products {
  import opened Common
  import opened Calendar
  import opened Entities
  import opened Store

  /** The dialog's form. The text inputs are strings; the two number
      inputs hold what parsing their text gives, or Blank while empty. */
  datatype ProductForm = ProductForm(articleNumber: string, name: string, cost: Entry, quantity: Entry)

  const EmptyForm := ProductForm("", "", Blank, Blank)

  /** The browser submits the form only when every input, all four marked
      required, is filled. */
  predicate Submittable(f: ProductForm)
  {
    f.articleNumber != "" && f.name != "" && f.cost.Number? && f.quantity.Number?
  }

  /** productData: the fields a save sends. It carries no id; createdAt is
      the edited product's own, or now for a new product. */
  function SavedFields(f: ProductForm, editing: Option<Product>, now: Instant): ProductPatch
    requires Submittable(f)
  {
    ProductPatch(None, Some(f.articleNumber), Some(f.name), Some(f.cost.value), Some(f.quantity.value),
                 Some(if editing.Some? then editing.value.createdAt else now))
  }

  /** The record addProduct stores under a fresh key: the sent fields and
      the key as id. */
  function NewRecord(d: ProductPatch, key: string): Product
  {
    MergeProduct(BlankProduct, d).(id := key)
  }

  /** The form handleEdit fills in from a product. */
  function EditForm(p: Product): ProductForm
  {
    ProductForm(p.articleNumber, p.name, Number(p.cost), Number(p.quantity))
  }

  /** Saving an edited product changes the fields typed into the form and
      keeps the stored record's id and the product's original createdAt. */
  lemma UpdateKeepsIdentity(stored: Product, f: ProductForm, p: Product, now: Instant)
    requires Submittable(f)
    ensures var r := MergeProduct(stored, SavedFields(f, Some(p), now));
      && r.id == stored.id && r.createdAt == p.createdAt
      && r.articleNumber == f.articleNumber && r.name == f.name
      && r.cost == f.cost.value && r.quantity == f.quantity.value
  {
  }

  /** A new product is stored with its key as id and stamped with now. */
  lemma AddStampsNow(f: ProductForm, now: Instant, key: string)
    requires Submittable(f)
    ensures var r := NewRecord(SavedFields(f, None, now), key);
      && r.id == key && r.createdAt == now
      && r.articleNumber == f.articleNumber && r.name == f.name
      && r.cost == f.cost.value && r.quantity == f.quantity.value
  {
  }

  /** Opening a product for edit and saving without changes writes back
      exactly the product; the form can be submitted when the product's
      text fields are not empty. */
  lemma EditThenSaveIsIdentity(p: Product, now: Instant)
    ensures Submittable(EditForm(p)) <==> p.articleNumber != "" && p.name != ""
    ensures Submittable(EditForm(p)) ==> MergeProduct(p, SavedFields(EditForm(p), Some(p), now)) == p
  {
  }

  /** The Low Stock badge: quantity <= 5 && quantity > 0. */
  predicate LowStock(quantity: int)
  {
    quantity <= 5 && quantity > 0
  }

  /** The Out of Stock badge: quantity === 0. */
  predicate OutOfStock(quantity: int)
  {
    quantity == 0
  }

  /** Low Stock is exactly 1..5, Out of Stock exactly 0, never both, and a
      negative quantity shows no badge. */
  lemma StockBadges(quantity: int)
    ensures LowStock(quantity) <==> 1 <= quantity <= 5
    ensures OutOfStock(quantity) <==> quantity == 0
    ensures !(LowStock(quantity) && OutOfStock(quantity))
    ensures quantity < 0 ==> !LowStock(quantity) && !OutOfStock(quantity)
  {
  }

  /** Search: the name or the article number contains the term, both
      compared in lower case. */
  predicate ProductMatches(p: Product, term: string)
  {
    Includes(Lower(p.name), Lower(term)) || Includes(Lower(p.articleNumber), Lower(term))
  }

  function FilteredProducts(ps: seq<Product>, term: string): (r: seq<Product>)
    ensures IsSubseq(r, ps)
    ensures forall p :: p in r <==> p in ps && ProductMatches(p, term)
    ensures forall p :: multiset(r)[p] == if ProductMatches(p, term) then multiset(ps)[p] else 0
    ensures term == "" ==> r == ps
  {
    Filter(ps, (p: Product) => ProductMatches(p, term))
  }

  /** Matching ignores the case of ASCII letters in the term. */
  lemma MatchIgnoresCase(p: Product, term: string)
    ensures ProductMatches(p, Lower(term)) <==> ProductMatches(p, term)
  {
    LowerFolds(term);
  }

  /** What one save does to the store: an update of the edited product's
      record, or a push of a new record under a fresh key, and nothing
      else; a rejected write leaves the records as they were. */
  ghost predicate SaveOutcome(editing: Option<Product>, d: ProductPatch, ok: bool,
                              products0: map<string, Product>, log0: seq<Call>,
                              products1: map<string, Product>, log1: seq<Call>)
  {
    if editing.Some? then
      var id := editing.value.id;
      && log1 == log0 + [Update(Products, id)]
      && products1 == (if ok then PutProduct(products0, id, d) else products0)
    else
      exists key :: key !in products0
        && log1 == log0 + [Push(Products, key)]
        && products1 == (if ok then products0[key := NewRecord(d, key)] else products0)
  }

  class ProductsPage {
    var db: Database
    var products: seq<Product>
    var searchTerm: string
    var isDialogOpen: bool
    var editingProduct: Option<Product>
    var form: ProductForm

    constructor (db: Database)
      ensures this.db == db && products == [] && searchTerm == "" && !isDialogOpen
      ensures editingProduct == None && form == EmptyForm
    {
      this.db := db;
      products, searchTerm, isDialogOpen, editingProduct, form := [], "", false, None, EmptyForm;
    }

    /** loadProducts: the stored products, in the order the store lists them. */
    method LoadProducts()
      modifies this`products
      ensures Listing(products, db.products)
    {
      products := db.ListProducts();
    }

    /** The Add Product button: a fresh, empty form for a new product. */
    method OpenNew()
      modifies this`editingProduct, this`form, this`isDialogOpen
      ensures editingProduct == None && form == EmptyForm && isDialogOpen
    {
      editingProduct, form := None, EmptyForm;
      isDialogOpen := true;
    }

    /** handleEdit: remember the product, copy its fields into the form and
        open the dialog. */
    method HandleEdit(p: Product)
      modifies this`editingProduct, this`form, this`isDialogOpen
      ensures editingProduct == Some(p) && form == EditForm(p) && isDialogOpen
    {
      editingProduct := Some(p);
      form := EditForm(p);
      isDialogOpen := true;
    }

    /** handleSubmit: update the product being edited, or add a new one;
        exactly one store write. When the write is accepted the list is
        reloaded and the form, the edit target and the dialog are reset;
        when it is rejected none of the page's state changes. */
    method HandleSubmit(now: Instant, ok: bool)
      requires Submittable(form)
      modifies this`products, this`form, this`editingProduct, this`isDialogOpen, db`products, db`log
      ensures SaveOutcome(old(editingProduct), SavedFields(old(form), old(editingProduct), now), ok,
                          old(db.products), old(db.log), db.products, db.log)
      ensures ok ==> Listing(products, db.products) && form == EmptyForm && editingProduct == None && !isDialogOpen
      ensures !ok ==> products == old(products) && form == old(form)
                      && editingProduct == old(editingProduct) && isDialogOpen == old(isDialogOpen)
    {
      var d := SavedFields(form, editingProduct, now);
      Save(editingProduct, d, ok);
      if !ok {
        return;
      }
      LoadProducts();
      form, editingProduct, isDialogOpen := EmptyForm, None, false;
    }

    /** The store write of handleSubmit. */
    method Save(editing: Option<Product>, d: ProductPatch, ok: bool)
      modifies db`products, db`log
      ensures SaveOutcome(editing, d, ok, old(db.products), old(db.log), db.products, db.log)
    {
      if editing.Some? {
        db.UpdateProduct(editing.value.id, d, ok);
      } else {
        var key := db.AddProduct(MergeProduct(BlankProduct, d), ok);
        assert db.products == if ok then old(db.products)[key := NewRecord(d, key)] else old(db.products);
      }
    }

    /** handleDelete: remove the product and reload the list when the store
        accepts. */
    method HandleDelete(id: string, ok: bool)
      modifies this`products, db`products, db`log
      ensures db.log == old(db.log) + [Remove(Products, id)]
      ensures db.products == if ok then old(db.products) - {id} else old(db.products)
      ensures ok ==> Listing(products, db.products) && id !in db.products
      ensures !ok ==> products == old(products)
    {
      db.RemoveProduct(id, ok);
      if ok {
        LoadProducts();
      }
    }
  }
}
