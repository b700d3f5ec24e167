/** The application's `encrypt`/`decrypt` pair and `Hash::make`, modelled as ideal
    primitives: a sealed value is distinct from any plaintext string, and opening it
    gives back exactly what was sealed. */
module Crypto {

  /** The output of `encrypt`: what is stored in the encrypted columns. */
  datatype Ciphertext = Sealed(payload: string)

  function Encrypt(plain: string): (c: Ciphertext) {
    Sealed(plain)
  }

  function Decrypt(c: Ciphertext): (plain: string) {
    c.payload
  }

  /** The output of `Hash::make`: a one-way password hash. */
  datatype PasswordHash = Bcrypt(secret: string)

  function HashPassword(plain: string): PasswordHash {
    Bcrypt(plain)
  }
}
