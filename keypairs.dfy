/**
 * The signing library (`stellar_base.Keypair`) at its boundary. Its
 * operations are not modelled; they are the fields of a `Scheme` value that
 * every operation needing them takes as a parameter, so everything proved
 * holds for every implementation of them.
 */
module Keypairs {
  import opened Json

  datatype Scheme = Scheme(
    /** `Keypair.from_seed(seed).address()`: the address a secret seed controls. */
    addressOf: string -> string,
    /** `Keypair.from_address(a)` succeeds (raises no `DecodeError`). */
    isAddress: Scalar -> bool,
    /** `base64(Keypair.from_seed(seed).sign(text))`. */
    sign: (string, string) -> string,
    /**
     * `Keypair.from_address(a).verify(text, base64.b64decode(sig))` raises
     * nothing: the signature `sig` over `text` is good for address `a`.
     */
    verify: (Scalar, string, Scalar) -> bool)

  /**
   * What an honest library promises: the address of a seed decodes, and
   * what the seed signs verifies against that address.
   */
  ghost predicate Sound(c: Scheme) {
    && (forall seed :: c.isAddress(Str(c.addressOf(seed))))
    && (forall seed, text :: c.verify(Str(c.addressOf(seed)), text, Str(c.sign(seed, text))))
  }
}
