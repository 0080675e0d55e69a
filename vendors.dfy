/** Vendor accounts and credential lookup (script.js:104-127). */
module Vendors {
  import opened Wrappers
  import opened Seqs

  /** A vendor account as signup stores it: plaintext credentials, no normalisation. */
  datatype Vendor = Vendor(vendorId: string, shop: string, email: string, password: string)

  /** The login test: email and password both equal, character for character. */
  function Credentials(email: string, password: string): Vendor -> bool
  {
    (v: Vendor) => v.email == email && v.password == password
  }

  /** Some vendor has exactly this email and this password. */
  predicate Registered(vs: seq<Vendor>, email: string, password: string)
  {
    exists i :: 0 <= i < |vs| && vs[i].email == email && vs[i].password == password
  }

  /** The first vendor whose email and password equal the given ones exactly. */
  function FindVendor(vs: seq<Vendor>, email: string, password: string): (r: Option<Vendor>)
    ensures r.None? <==> !Registered(vs, email, password)
    ensures r.Some? ==> r.value in vs && r.value.email == email && r.value.password == password
    ensures forall i :: 0 <= i < |vs| && vs[i].email == email && vs[i].password == password &&
                        (forall j :: 0 <= j < i ==> !(vs[j].email == email && vs[j].password == password))
                        ==> r == Some(vs[i])
  {
    match FirstWhere(vs, Credentials(email, password))
    case None => None
    case Some(i) => Some(vs[i])
  }

  /** After signup the new credentials log in; but when an earlier account already
      has the same email and password, login still finds that earlier account. */
  lemma FindAfterSignup(vs: seq<Vendor>, v: Vendor, email: string, password: string)
    ensures Registered(vs + [v], v.email, v.password)
    ensures FindVendor(vs + [v], email, password) ==
              if Registered(vs, email, password) then FindVendor(vs, email, password)
              else if v.email == email && v.password == password then Some(v)
              else None
  {
    var ws := vs + [v];
    assert ws[|vs|] == v;
    if Registered(vs, email, password) {
      var k := FirstWhere(vs, Credentials(email, password)).value;
      assert ws[k] == vs[k];
      forall j | 0 <= j < k ensures !(ws[j].email == email && ws[j].password == password) {
        assert ws[j] == vs[j];
      }
    } else {
      forall j | 0 <= j < |vs| ensures !(ws[j].email == email && ws[j].password == password) {
        assert ws[j] == vs[j];
      }
    }
  }

  /** Emails are compared without case folding: an address that equals no stored
      address character for character, such as a stored address written with
      different letter case, does not log in, whatever the password. */
  lemma LoginIsCaseSensitive(vs: seq<Vendor>, email: string, password: string)
    requires forall j :: 0 <= j < |vs| ==> vs[j].email != email
    ensures FindVendor(vs, email, password) == None
  {
  }
}
