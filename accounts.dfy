/**
 * The account collection behind `userModel`: a sequence of documents. The
 * model takes the order of the sequence as the order `findOne` scans, and a
 * save appends at the end; MongoDB's natural order is not guaranteed to be
 * insertion order, which matters only when two documents share an email.
 * Nothing in the storage itself keeps emails unique; the controller's
 * pre-check is what does.
 */
module Accounts {
  import opened Wrappers
  import opened Collaborators

  /** A stored user document; `password` holds the bcrypt hash, as in the schema. */
  datatype Account = Account(id: ObjectId, name: string, email: string, password: string)

  /** Position of the first document whose email is exactly `email`, or |docs| if there is none. */
  function IndexOf(docs: seq<Account>, email: string): (k: nat)
    ensures k <= |docs|
    ensures k < |docs| ==> docs[k].email == email
    ensures forall i :: 0 <= i < k ==> docs[i].email != email
  {
    if docs == [] then 0
    else if docs[0].email == email then 0
    else 1 + IndexOf(docs[1..], email)
  }

  /** `userModel.findOne({ email })`: the first document with that exact email. */
  function Find(docs: seq<Account>, email: string): (r: Option<Account>)
    ensures r.None? <==> forall i :: 0 <= i < |docs| ==> docs[i].email != email
    ensures r.Some? ==> r.value in docs && r.value.email == email
  {
    var k := IndexOf(docs, email);
    if k < |docs| then Some(docs[k]) else None
  }

  /** At most one document per email. */
  ghost predicate UniqueEmails(docs: seq<Account>)
  {
    forall i, j :: 0 <= i < j < |docs| ==> docs[i].email != docs[j].email
  }

  /** Under unique emails, a lookup by a stored email finds that very document. */
  lemma FindUnique(docs: seq<Account>, i: nat)
    requires UniqueEmails(docs) && i < |docs|
    ensures Find(docs, docs[i].email) == Some(docs[i])
  {
    var k := IndexOf(docs, docs[i].email);
    assert k == i;
  }

  /** Appending a document whose email is not yet stored keeps emails unique. */
  lemma UniqueEmailsAppend(docs: seq<Account>, a: Account)
    requires UniqueEmails(docs) && Find(docs, a.email).None?
    ensures UniqueEmails(docs + [a])
  {
    var all := docs + [a];
    forall i, j | 0 <= i < j < |all| ensures all[i].email != all[j].email {
      assert all[i] == docs[i];
      if j < |docs| {
        assert all[j] == docs[j];
      }
    }
  }

  /** Appending a document changes no lookup that already succeeded, and makes a failed lookup by its email find it. */
  lemma {:induction false} FindAppend(docs: seq<Account>, a: Account, email: string)
    ensures Find(docs + [a], email) ==
      if Find(docs, email).Some? then Find(docs, email)
      else if a.email == email then Some(a)
      else None
  {
    if docs != [] {
      assert (docs + [a])[1..] == docs[1..] + [a];
      FindAppend(docs[1..], a, email);
    }
  }

  /** The collection as the handlers see it through Mongoose. */
  class AccountStore {
    var documents: seq<Account>

    constructor (initial: seq<Account>)
      ensures documents == initial
    {
      documents := initial;
    }

    /** `await userModel.findOne({ email })`: reads the collection, or throws. */
    method FindOne(email: string, fx: Effects) returns (r: Result<Option<Account>>)
      ensures r.Err? <==> fx.Throws(Lookup)
      ensures r.Err? ==> r.message == fx.fault.value.message
      ensures r.Ok? ==> r.value == Find(documents, email)
    {
      r := fx.Attempt(Lookup, Find(documents, email));
    }

    /** `await newUser.save()`: appends the document and returns it, or throws and leaves the collection as it was. */
    method Save(a: Account, fx: Effects) returns (r: Result<Account>)
      modifies this
      ensures r.Err? <==> fx.Throws(Saving)
      ensures r.Err? ==> r.message == fx.fault.value.message && documents == old(documents)
      ensures r.Ok? ==> r.value == a && documents == old(documents) + [a]
    {
      r := fx.Attempt(Saving, a);
      if r.Ok? {
        documents := documents + [a];
      }
    }
  }
}
