/** Machine words of the program. */
module Words {

  /** Unsigned numbers have 64 bits. */
  const UINT_SIZE: nat := 0x1_0000_0000_0000_0000
}
