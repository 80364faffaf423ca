/**
 * The profile page's data operations: deleting an address, choosing the
 * default address, and editing one field of the personal-information form.
 */
module Profile {
  import opened Wrappers
  import opened Seqs
  import Session

  datatype Address = Address(
    id: string,
    kind: string,
    street: string,
    city: string,
    state: string,
    zipCode: string,
    country: string,
    isDefault: bool)

  /** The two addresses the page starts with. */
  const InitialAddresses: seq<Address> := [
    Address("1", "Home", "123 Main Street", "New York", "NY", "10001", "United States", true),
    Address("2", "Work", "456 Business Ave", "New York", "NY", "10002", "United States", false)
  ]

  predicate UniqueIds(addrs: seq<Address>) {
    forall i, j :: 0 <= i < j < |addrs| ==> addrs[i].id != addrs[j].id
  }

  /** The number of addresses marked default. */
  function CountDefaults(addrs: seq<Address>): nat
    decreases |addrs|
  {
    if addrs == [] then 0 else (if addrs[0].isDefault then 1 else 0) + CountDefaults(addrs[1..])
  }

  // ---------------------------------------------------------------------------
  // handleDeleteAddress

  /** `prev.filter(addr => addr.id !== addressId)`. */
  function DeleteAddress(addrs: seq<Address>, addressId: string): seq<Address> {
    Filter(addrs, (a: Address) => a.id != addressId)
  }

  /** Exactly the addresses with that id are removed: every other address
      keeps its multiplicity and the survivors keep their original order. */
  lemma DeleteMeaning(addrs: seq<Address>, addressId: string)
    ensures forall a :: a in DeleteAddress(addrs, addressId) ==> a.id != addressId
    ensures forall a :: multiset(DeleteAddress(addrs, addressId))[a] == if a.id == addressId then 0 else multiset(addrs)[a]
    ensures IsSubsequence(DeleteAddress(addrs, addressId), addrs)
  {
    FilterCounts(addrs, (a: Address) => a.id != addressId);
    FilterIsSubsequence(addrs, (a: Address) => a.id != addressId);
  }

  /** Deleting an id nobody has changes nothing. */
  lemma DeleteAbsent(addrs: seq<Address>, addressId: string)
    requires forall a :: a in addrs ==> a.id != addressId
    ensures DeleteAddress(addrs, addressId) == addrs
  {
    FilterAllKept(addrs, (a: Address) => a.id != addressId);
  }

  // ---------------------------------------------------------------------------
  // handleSetDefaultAddress

  /** `prev.map(addr => ({ ...addr, isDefault: addr.id === addressId }))`. */
  function SetDefaultAddress(addrs: seq<Address>, addressId: string): (r: seq<Address>)
    ensures |r| == |addrs|
    ensures forall i :: 0 <= i < |r| ==> (r[i].isDefault <==> r[i].id == addressId)
    ensures forall i :: 0 <= i < |r| ==> r[i].(isDefault := addrs[i].isDefault) == addrs[i]
  {
    seq(|addrs|, i requires 0 <= i < |addrs| => addrs[i].(isDefault := addrs[i].id == addressId))
  }

  /** Choosing the same default twice is the same as choosing it once. */
  lemma SetDefaultIdempotent(addrs: seq<Address>, addressId: string)
    ensures SetDefaultAddress(SetDefaultAddress(addrs, addressId), addressId) == SetDefaultAddress(addrs, addressId)
  {
  }

  /** With unique ids, the chosen address is the only default: exactly one
      when the id is present, none when it is not. */
  lemma {:induction false} SetDefaultCount(addrs: seq<Address>, addressId: string)
    requires UniqueIds(addrs)
    ensures CountDefaults(SetDefaultAddress(addrs, addressId)) == if exists a :: a in addrs && a.id == addressId then 1 else 0
    decreases |addrs|
  {
    if addrs != [] {
      var rest := addrs[1..];
      SetDefaultCount(rest, addressId);
      assert SetDefaultAddress(addrs, addressId)[1..] == SetDefaultAddress(rest, addressId);
      if addrs[0].id == addressId {
        assert !exists a :: a in rest && a.id == addressId by {
          forall a | a in rest ensures a.id != addressId {
            var k :| 0 <= k < |rest| && rest[k] == a;
            assert addrs[k + 1] == a;
          }
        }
      } else {
        assert (exists a :: a in addrs && a.id == addressId) <==> (exists a :: a in rest && a.id == addressId) by {
          if exists a :: a in addrs && a.id == addressId {
            var a :| a in addrs && a.id == addressId;
            assert a != addrs[0];
            var k :| 0 <= k < |addrs| && addrs[k] == a;
            assert rest[k - 1] == a;
          }
        }
      }
    }
  }

  /** The page starts with unique ids and exactly one default address. */
  lemma InitialAddressesWellFormed()
    ensures UniqueIds(InitialAddresses)
    ensures CountDefaults(InitialAddresses) == 1
  {
    assert InitialAddresses[1..][1..] == [];
  }

  // ---------------------------------------------------------------------------
  // handleInputChange over formData

  /** The form as an object from field name to text. */
  type FormData = map<string, string>

  /** The form filled from the signed-in user (`user?.firstName || ''` and so
      on) with an empty phone number. */
  function InitialForm(user: Option<Session.User>): (f: FormData)
    ensures f.Keys == {"firstName", "lastName", "email", "phone"}
    ensures f["phone"] == ""
    ensures user.None? ==> f["firstName"] == "" && f["lastName"] == "" && f["email"] == ""
    ensures user.Some? ==> f["firstName"] == user.value.firstName && f["lastName"] == user.value.lastName
    ensures user.Some? ==> f["email"] == user.value.email
  {
    match user
    case None => map["firstName" := "", "lastName" := "", "email" := "", "phone" := ""]
    case Some(u) => map["firstName" := u.firstName, "lastName" := u.lastName, "email" := u.email, "phone" := ""]
  }

  /** `{ ...prev, [name]: value }`: the named field gets the input's value;
      every other field keeps its value. */
  function HandleInputChange(form: FormData, name: string, value: string): (r: FormData)
    ensures name in r && r[name] == value
    ensures r.Keys == form.Keys + {name}
    ensures forall k :: k in form && k != name ==> r[k] == form[k]
  {
    form[name := value]
  }

  /** Edits through the four named inputs never add or remove a field. */
  lemma InputChangeKeepsFields(user: Option<Session.User>, name: string, value: string)
    requires name in {"firstName", "lastName", "email", "phone"}
    ensures HandleInputChange(InitialForm(user), name, value).Keys == InitialForm(user).Keys
  {
  }
}
