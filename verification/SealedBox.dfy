/** PBKDF2 + AES-GCM as free symbols: a key is exactly the password, salt and iteration
    count it was derived from, and a box opens under the key that sealed it and no other. */
module SealedBox {
  import opened Common

  datatype Kdf = Kdf(iterations: nat, salt: nat)

  datatype Key = Key(password: string, kdf: Kdf)

  /** `Damaged` is a ciphertext that no key opens. */
  datatype Cipher<P> = Sealed(key: Key, iv: nat, plain: P) | Damaged

  /** deriveAesKey */
  function Derive(password: string, kdf: Kdf): Key {
    Key(password, kdf)
  }

  function Seal<P>(key: Key, iv: nat, plain: P): Cipher<P> {
    Sealed(key, iv, plain)
  }

  function Open<P>(key: Key, box: Cipher<P>): Option<P> {
    if box.Sealed? && box.key == key then Some(box.plain) else None
  }

  /** The password opens the box under the kdf block stored beside it. */
  function OpenWithPassword<P>(password: string, kdf: Kdf, box: Cipher<P>): Option<P> {
    Open(Derive(password, kdf), box)
  }

  /** The box was damaged, or sealed under a key that its own kdf block does not derive. */
  predicate Bricked<P>(kdf: Kdf, box: Cipher<P>) {
    box.Sealed? ==> box.key.kdf != kdf
  }

  /** Those are the boxes that no password opens. */
  lemma BrickedIff<P>(kdf: Kdf, box: Cipher<P>)
    ensures Bricked(kdf, box) <==> forall password :: OpenWithPassword(password, kdf, box) == None
  {
    if box.Sealed? && box.key.kdf == kdf {
      assert OpenWithPassword(box.key.password, kdf, box).Some?;
    }
  }
}
