/** The credential vault: symmetric encryption of connector passwords under
    one process-wide key. The cipher itself is a parameter; the model only
    relies on decryption undoing encryption. Each encryption draws a fresh
    initialisation vector and reads the clock; the `nonce` argument stands
    for both, so encrypting the same text twice may give different tokens. */
module Vault {
  import opened Outcomes

  /** An encryption scheme: `decrypt` yields `None` for a token it refuses. */
  datatype Vault = Vault(encrypt: (string, nat) -> string, decrypt: string -> Option<string>)

  /** Decrypting what this vault encrypted gives the plaintext back. */
  ghost predicate Sound(v: Vault) {
    forall x, nonce :: v.decrypt(v.encrypt(x, nonce)) == Some(x)
  }

  /** `Connector.decrypt_password`: an invalid ciphertext raises rather than
      yielding a value. */
  function DecryptPassword(v: Vault, stored: string): (r: Result<string>)
    ensures r.Ok? <==> v.decrypt(stored).Some?
    ensures r.Ok? ==> r.value == v.decrypt(stored).value
  {
    match v.decrypt(stored)
    case Some(p) => Ok(p)
    case None => Err(Raised("InvalidToken", ""))
  }

  /** A password the vault encrypted is recovered exactly. */
  lemma DecryptUndoesEncrypt(v: Vault, x: string, nonce: nat)
    requires Sound(v)
    ensures DecryptPassword(v, v.encrypt(x, nonce)) == Ok(x)
  {
  }
}
