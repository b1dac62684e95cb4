/**
 * The foreign collaborators of the controller, kept abstract: bcrypt
 * (`genSalt`, `hash`, `compare`), jsonwebtoken (`sign`) and the document
 * store. What they compute is given by uninterpreted functions; the values
 * the environment chooses (the random salt, the store-generated `_id`) and
 * whether an awaited call throws are given by an `Effects` record.
 */
module Collaborators {
  import opened Wrappers

  /** A bcrypt salt. */
  type Salt = nat

  /** A document `_id`. */
  type ObjectId = nat

  /** The pure part of the crypto libraries. */
  datatype Crypto = Crypto(
    hash: (string, Salt) -> string,      // bcrypt.hash(password, salt)
    compare: (string, string) -> bool,   // bcrypt.compare(password, hash)
    sign: (ObjectId, string) -> string)  // jwt.sign({ id }, secret, { expiresIn: "7d" })

  /**
   * What the model assumes of bcrypt wherever it needs it: a password
   * verifies against its own hash, and a hash is never the plaintext.
   */
  ghost predicate Sound(c: Crypto)
  {
    forall password, salt :: c.compare(password, c.hash(password, salt)) && c.hash(password, salt) != password
  }

  /** The awaited or throwing calls a handler makes, in the order they can happen. */
  datatype Step = Lookup | SaltGen | Hashing | Saving | Signing | Comparing

  /** The call that throws during one request, and the error's `message`. */
  datatype Fault = Fault(at: Step, message: string)

  /**
   * What the environment decides for one request: the salt `genSalt` draws,
   * the `_id` the store gives a new document, and at most one failing call
   * (the first throw ends the request, so one is enough).
   */
  datatype Effects = Effects(salt: Salt, newId: ObjectId, fault: Option<Fault>)
  {
    predicate Throws(s: Step)
    {
      fault.Some? && fault.value.at == s
    }

    /** Running the call at step `s`, which would return `v`: the value, or the error it throws. */
    function Attempt<T>(s: Step, v: T): (r: Result<T>)
      ensures r.Err? <==> Throws(s)
      ensures r.Ok? ==> r.value == v
      ensures r.Err? ==> r.message == fault.value.message
    {
      if Throws(s) then Err(fault.value.message) else Ok(v)
    }
  }
}
