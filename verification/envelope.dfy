// Ideal authenticated encryption of payloads: a ciphertext opens only under the key
// and the associated data it was sealed with, and then yields its plaintext.
module Envelopes {
  import opened Base
  import opened Json

  datatype Aad = Aad(ownerSub: string, collection: string, recordId: string, keyVersion: nat)

  datatype Ciphertext = Ciphertext(key: nat, aad: Aad, nonce: nat, plaintext: JsonObject)

  datatype Envelope = Envelope(ciphertext: Ciphertext, nonce: nat, keyVersion: nat)

  function Encrypt(key: nat, aad: Aad, nonce: nat, plaintext: JsonObject): Envelope {
    Envelope(Ciphertext(key, aad, nonce, plaintext), nonce, aad.keyVersion)
  }

  function Decrypt(key: nat, ownerSub: string, collection: string, recordId: string, envelope: Envelope): Option<JsonObject> {
    var c := envelope.ciphertext;
    if c.key == key && c.nonce == envelope.nonce && c.aad == Aad(ownerSub, collection, recordId, envelope.keyVersion)
    then Some(c.plaintext) else None
  }
}
