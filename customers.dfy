/** The customer page: the edit form, saving a customer (a push of a new
    record stamped with the current time, or a partial update of the four
    form fields of the customer being edited), deleting, the three-field
    search, and the "-" shown for an empty field. The clock reading and the
    store's acceptance of each write are parameters. */
module Customers {
  import opened Common
  import opened Calendar
  import opened Entities
  import opened Store

  datatype CustomerForm = CustomerForm(name: string, email: string, phone: string, address: string)

  const EmptyForm := CustomerForm("", "", "", "")

  /** The browser submits the form only when its one required input, the
      name, is filled. */
  predicate Submittable(f: CustomerForm)
  {
    f.name != ""
  }

  /** The fields updateCustomer sends for an edit: formData alone, so the
      stored id and createdAt are left as they are. */
  function UpdateFields(f: CustomerForm): CustomerPatch
  {
    CustomerPatch(None, Some(f.name), Some(f.email), Some(f.phone), Some(f.address), None)
  }

  /** The record addCustomer stores under a fresh key: the form fields,
      createdAt, and the key as id. */
  function NewRecord(f: CustomerForm, now: Instant, key: string): Customer
  {
    Customer(key, f.name, f.email, f.phone, f.address, now)
  }

  /** The form handleEdit fills in from a customer. */
  function EditForm(c: Customer): CustomerForm
  {
    CustomerForm(c.name, c.email, c.phone, c.address)
  }

  /** An edit changes the four form fields of the stored record and keeps
      its id and its createdAt; an add stores the form fields, the key as
      id and the time of the add. */
  lemma UpdateKeepsIdentity(stored: Customer, f: CustomerForm)
    ensures var r := MergeCustomer(stored, UpdateFields(f));
      && r.id == stored.id && r.createdAt == stored.createdAt
      && r == Customer(stored.id, f.name, f.email, f.phone, f.address, stored.createdAt)
  {
  }

  lemma AddStampsNow(f: CustomerForm, now: Instant, key: string)
    ensures var r := NewRecord(f, now, key);
      && r.id == key && r.createdAt == now
      && EditForm(r) == f
  {
  }

  /** Opening a customer for edit and saving without changes writes back
      exactly the customer. */
  lemma EditThenSaveIsIdentity(c: Customer)
    ensures MergeCustomer(c, UpdateFields(EditForm(c))) == c
  {
  }

  /** {value || "-"}: an empty field is shown as a dash. */
  function Display(s: string): string
  {
    if s == "" then "-" else s
  }

  /** A shown cell is never empty: a non-empty field is shown as it is,
      and the cell reads "-" exactly when the field is empty or is "-". */
  lemma DisplayNeverBlank(s: string)
    ensures Display(s) != ""
    ensures s != "" ==> Display(s) == s
    ensures Display(s) == "-" <==> s == "" || s == "-"
  {
  }

  /** Search: name or email contains the term in lower case, or the phone
      contains the term exactly as typed. */
  predicate CustomerMatches(c: Customer, term: string)
  {
    Includes(Lower(c.name), Lower(term)) || Includes(Lower(c.email), Lower(term)) || Includes(c.phone, term)
  }

  function FilteredCustomers(cs: seq<Customer>, term: string): (r: seq<Customer>)
    ensures IsSubseq(r, cs)
    ensures forall c :: c in r <==> c in cs && CustomerMatches(c, term)
    ensures forall c :: multiset(r)[c] == if CustomerMatches(c, term) then multiset(cs)[c] else 0
    ensures term == "" ==> r == cs
  {
    Filter(cs, (c: Customer) => CustomerMatches(c, term))
  }

  /** The phone comparison does not fold case: a term that differs from
      the phone only in case finds nothing there. */
  lemma PhoneMatchIsCaseSensitive()
    ensures CustomerMatches(Customer("k", "Sara", "", "EXT-7", "", NoInstant), "EXT-7")
    ensures !CustomerMatches(Customer("k", "Sara", "", "EXT-7", "", NoInstant), "ext-7")
  {
    assert "EXT-7" <= "EXT-7";
    assert Lower("ext-7") == "ext-7";
    assert Lower("Sara") == "sara";
    IncludesAt("sara", "ext-7");
    IncludesAt("", "ext-7");
    IncludesAt("EXT-7", "ext-7");
    forall i | 0 <= i <= 5 ensures !("ext-7" <= "EXT-7"[i..]) {
      if i == 0 {
        assert "EXT-7"[i..][0] == 'E';
      }
    }
  }

  /** What one save does to the store: a partial update of the edited
      customer's record, or a push of a new record under a fresh key; a
      rejected write leaves the records as they were. */
  ghost predicate SaveOutcome(editing: Option<Customer>, f: CustomerForm, now: Instant, ok: bool,
                              customers0: map<string, Customer>, log0: seq<Call>,
                              customers1: map<string, Customer>, log1: seq<Call>)
  {
    if editing.Some? then
      var id := editing.value.id;
      && log1 == log0 + [Update(Customers, id)]
      && customers1 == (if ok then PutCustomer(customers0, id, UpdateFields(f)) else customers0)
    else
      exists key :: key !in customers0
        && log1 == log0 + [Push(Customers, key)]
        && customers1 == (if ok then customers0[key := NewRecord(f, now, key)] else customers0)
  }

  class CustomersPage {
    var db: Database
    var customers: seq<Customer>
    var searchTerm: string
    var isDialogOpen: bool
    var editingCustomer: Option<Customer>
    var form: CustomerForm

    constructor (db: Database)
      ensures this.db == db && customers == [] && searchTerm == "" && !isDialogOpen
      ensures editingCustomer == None && form == EmptyForm
    {
      this.db := db;
      customers, searchTerm, isDialogOpen, editingCustomer, form := [], "", false, None, EmptyForm;
    }

    /** loadCustomers: the stored customers, in the order the store lists them. */
    method LoadCustomers()
      modifies this`customers
      ensures Listing(customers, db.customers)
    {
      customers := db.ListCustomers();
    }

    /** The Add Customer button: a fresh, empty form for a new customer. */
    method OpenNew()
      modifies this`editingCustomer, this`form, this`isDialogOpen
      ensures editingCustomer == None && form == EmptyForm && isDialogOpen
    {
      editingCustomer, form := None, EmptyForm;
      isDialogOpen := true;
    }

    /** handleEdit: remember the customer, copy its four fields into the
        form and open the dialog. */
    method HandleEdit(c: Customer)
      modifies this`editingCustomer, this`form, this`isDialogOpen
      ensures editingCustomer == Some(c) && form == EditForm(c) && isDialogOpen
    {
      editingCustomer := Some(c);
      form := EditForm(c);
      isDialogOpen := true;
    }

    /** handleSubmit: update the customer being edited, or add a new one;
        exactly one store write. When the write is accepted the list is
        reloaded and the form, the edit target and the dialog are reset;
        when it is rejected none of the page's state changes. */
    method HandleSubmit(now: Instant, ok: bool)
      requires Submittable(form)
      modifies this`customers, this`form, this`editingCustomer, this`isDialogOpen, db`customers, db`log
      ensures SaveOutcome(old(editingCustomer), old(form), now, ok, old(db.customers), old(db.log), db.customers, db.log)
      ensures ok ==> Listing(customers, db.customers) && form == EmptyForm && editingCustomer == None && !isDialogOpen
      ensures !ok ==> customers == old(customers) && form == old(form)
                      && editingCustomer == old(editingCustomer) && isDialogOpen == old(isDialogOpen)
    {
      Save(editingCustomer, form, now, ok);
      if !ok {
        return;
      }
      LoadCustomers();
      form, editingCustomer, isDialogOpen := EmptyForm, None, false;
    }

    /** The store write of handleSubmit. */
    method Save(editing: Option<Customer>, f: CustomerForm, now: Instant, ok: bool)
      modifies db`customers, db`log
      ensures SaveOutcome(editing, f, now, ok, old(db.customers), old(db.log), db.customers, db.log)
    {
      if editing.Some? {
        db.UpdateCustomer(editing.value.id, UpdateFields(f), ok);
      } else {
        var stamped := Customer("", f.name, f.email, f.phone, f.address, now);
        var key := db.AddCustomer(stamped, ok);
        assert stamped.(id := key) == NewRecord(f, now, key);
      }
    }

    /** handleDelete: remove the customer and reload the list when the
        store accepts. */
    method HandleDelete(id: string, ok: bool)
      modifies this`customers, db`customers, db`log
      ensures db.log == old(db.log) + [Remove(Customers, id)]
      ensures db.customers == if ok then old(db.customers) - {id} else old(db.customers)
      ensures ok ==> Listing(customers, db.customers) && id !in db.customers
      ensures !ok ==> customers == old(customers)
    {
      db.RemoveCustomer(id, ok);
      if ok {
        LoadCustomers();
      }
    }
  }
}
