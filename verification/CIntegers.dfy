/** The integers of C that wrap around: size_t has 64 bits, int has 32. */
module CIntegers {
  const SIZE_T: nat := 0x1_0000_0000_0000_0000
  const INT: nat := 0x1_0000_0000

  function SizeT(n: int): nat {
    n % SIZE_T
  }

  /** A cast to int keeps the low 32 bits. */
  function ToInt(n: int): int {
    if n % INT < INT / 2 then n % INT else n % INT - INT
  }
}
