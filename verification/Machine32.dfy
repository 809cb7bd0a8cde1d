/** The machine's word size. */
module Machine32 {
  /** 32-bit unsigned arithmetic is modulo this. */
  const WORD: nat := 0x1_0000_0000
}
