/** The integers of the machine: 32-bit DWORDs and 64-bit words. */
module Words {

  const DWORD_SIZE := 0x1_0000_0000
  const WORD_SIZE := 0x1_0000_0000_0000_0000

  type Dword = x: int | 0 <= x < DWORD_SIZE
  type Word = x: int | 0 <= x < WORD_SIZE
}
