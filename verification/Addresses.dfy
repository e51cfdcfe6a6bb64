/**
 Wallet addresses in canonical form. The source only tests them for equality and for being
 empty, so an address is either the empty string (also standing for `undefined`) or a number.
 */
module Addresses {
  datatype Address = Empty | Account(id: nat)

  /** The zero address, which stands for minting and burning in the transfer log. */
  const ZERO_ADDRESS: Address := Account(0)
}
