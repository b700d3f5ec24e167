/** Model attributes shared by the SMTP provider and the OIDC settings: an encrypted
    column behind an accessor and a mutator, and the serialised form of a record. */
module Attributes {
  import opened Wrappers
  import opened PhpStrings
  import opened Crypto

  /** The mutator of an encrypted attribute: a truthy value is stored encrypted, a
      falsy one ("" or "0") or null as null. */
  function StoreEncrypted(value: Option<string>): (raw: Option<Ciphertext>)
    ensures raw.Some? <==> value.Some? && Truthy(value.value)
    ensures raw.Some? ==> raw.value == Encrypt(value.value)
  {
    if value.Some? && Truthy(value.value) then Some(Encrypt(value.value)) else None
  }

  /** The accessor: the decrypted value, or null when nothing is stored. */
  function ReadEncrypted(raw: Option<Ciphertext>): Option<string> {
    if raw.Some? then Some(Decrypt(raw.value)) else None
  }

  /** Setting an attribute and reading it back gives the value when it is truthy, and
      null otherwise. */
  lemma EncryptedRoundTrip(value: Option<string>)
    ensures value.Some? && Truthy(value.value) ==> ReadEncrypted(StoreEncrypted(value)) == value
    ensures !(value.Some? && Truthy(value.value)) ==> ReadEncrypted(StoreEncrypted(value)) == None
  {
  }

  /** The value of a serialised attribute. */
  datatype Json = JString(s: string) | JInt(i: int) | JBool(b: bool) | JNull
}
