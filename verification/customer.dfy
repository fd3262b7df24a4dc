/** The customer record and its store (hotel_system/customer.py). */
module Customers {
  import opened Wrappers
  import opened Json
  import RecordStore

  datatype Customer = Customer(customerId: string, name: string, email: string, phone: string)

  /** The keys `from_dict` reads; a record missing any of them is skipped. */
  const RequiredKeys: set<string> := {"customer_id", "name", "email", "phone"}

  /** The attributes `modify` may set. */
  const ModifiableKeys: set<string> := {"name", "email", "phone"}

  /** The named parameters of `modify`, which no keyword argument may repeat. */
  const ModifyParameters: set<string> := {"cls", "customer_id"}

  /** `to_dict`: one string entry per attribute. */
  function ToDict(c: Customer): (v: Value)
    ensures v.Object? && v.fields.Keys == RequiredKeys
    ensures v.fields["customer_id"] == Str(c.customerId) && v.fields["name"] == Str(c.name)
    ensures v.fields["email"] == Str(c.email) && v.fields["phone"] == Str(c.phone)
  {
    Object(map["customer_id" := Str(c.customerId), "name" := Str(c.name),
               "email" := Str(c.email), "phone" := Str(c.phone)])
  }

  /**
   * `from_dict`: every required key must be present (KeyError otherwise) and
   * the record must be a dict (TypeError otherwise); each value passes
   * through `str`, which never fails.
   */
  function FromDict(data: Value): (r: Option<Customer>)
    ensures r.Some? <==> data.Object? && RequiredKeys <= data.fields.Keys
  {
    if data.Object? && RequiredKeys <= data.fields.Keys then
      var f := data.fields;
      Some(Customer(AsText(f["customer_id"]), AsText(f["name"]), AsText(f["email"]), AsText(f["phone"])))
    else None
  }

  /** `from_dict(to_dict(c))` reproduces `c` field for field. */
  lemma DictRoundTrip(c: Customer)
    ensures FromDict(ToDict(c)) == Some(c)
  {
  }

  /** Saving a customer collection and loading it again gives it back unchanged. */
  lemma SaveLoadRoundTrip(m: map<string, Customer>)
    ensures RecordStore.Loaded(RecordStore.Saved(m, ToDict), FromDict) == Some(m)
  {
    forall c: Customer ensures FromDict(ToDict(c)) == Some(c) {
      DictRoundTrip(c);
    }
    RecordStore.SaveLoadRoundTrip(m, ToDict, FromDict);
  }

  /**
   * The customer as the next load reads it after `modify`: `setattr` stores
   * each allow-listed value as given, and `from_dict` passes it through `str`.
   */
  function Modified(c: Customer, kwargs: seq<RecordStore.Kwarg>): (r: Customer)
    ensures r.customerId == c.customerId
    ensures r.name == RecordStore.TextSetting(kwargs, "name", c.name)
    ensures r.email == RecordStore.TextSetting(kwargs, "email", c.email)
    ensures r.phone == RecordStore.TextSetting(kwargs, "phone", c.phone)
  {
    var fields := RecordStore.Edited(ToDict(c).fields, kwargs, ModifiableKeys);
    FromDict(Object(fields)).value
  }

  /** The customer collection, as `load_all` hands it to each operation. */
  class CustomerStore {
    var customers: map<string, Customer>

    constructor (loaded: map<string, Customer>)
      ensures customers == loaded
    {
      customers := loaded;
    }

    /** `create`: refuses an id already present, else adds exactly that key. */
    method Create(customerId: string, name: string, email: string, phone: string)
      returns (r: Option<Customer>)
      modifies this
      ensures customerId in old(customers) ==> r.None? && customers == old(customers)
      ensures customerId !in old(customers) ==>
        r == Some(Customer(customerId, name, email, phone)) &&
        customers == old(customers)[customerId := r.value]
    {
      if customerId in customers {
        return None;
      }
      var customer := Customer(customerId, name, email, phone);
      customers := customers[customerId := customer];
      r := Some(customer);
    }

    /** `delete`: False for an unknown id; otherwise removes only that key. */
    method Delete(customerId: string) returns (ok: bool)
      modifies this
      ensures ok == (customerId in old(customers))
      ensures customers == old(customers) - {customerId}
      ensures Get(customerId).None?
    {
      if customerId !in customers {
        return false;
      }
      customers := customers - {customerId};
      ok := true;
    }

    /** `get`: the stored record, or None. */
    function Get(customerId: string): (r: Option<Customer>)
      reads this
      ensures r.Some? <==> customerId in customers
      ensures r.Some? ==> r.value == customers[customerId]
    {
      if customerId in customers then Some(customers[customerId]) else None
    }

    /**
     * `modify`: a keyword argument named like a parameter is refused by the
     * argument binding; otherwise False for an unknown id, or the allow-listed
     * attributes set from the keyword arguments in order, the others ignored,
     * and True.
     */
    method Modify(customerId: string, kwargs: seq<RecordStore.Kwarg>) returns (outcome: RecordStore.ModifyOutcome)
      modifies this
      ensures outcome.Clash? <==> RecordStore.Clashes(kwargs, ModifyParameters)
      ensures outcome.NotFound? <==> !RecordStore.Clashes(kwargs, ModifyParameters) && customerId !in old(customers)
      ensures !outcome.Updated? ==> customers == old(customers)
      ensures outcome.Updated? ==>
        customers == old(customers)[customerId := Modified(old(customers)[customerId], kwargs)]
    {
      if RecordStore.Clashes(kwargs, ModifyParameters) {
        return RecordStore.Clash;
      }
      if customerId !in customers {
        return RecordStore.NotFound;
      }
      var original := customers[customerId];
      var attributes := RecordStore.ApplyKwargs(ToDict(original).fields, kwargs, ModifiableKeys);
      customers := customers[customerId := FromDict(Object(attributes)).value];
      outcome := RecordStore.Updated;
    }
  }
}
