// What encryption does to the length of a file.

module Cipher {
  const NONCE_LEN: nat := 12
  const TAG_LEN: nat := 16

  /** What encryption adds to a file: a nonce in front and a tag behind. */
  const EXTRA_CIPHERTEXT_LEN: nat := NONCE_LEN + TAG_LEN
}
