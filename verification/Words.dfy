/** The unsigned integer types of the source as range-checked integers. */
module Words {

  newtype uint16 = x: int | 0 <= x < 0x1_0000

  newtype uint32 = x: int | 0 <= x < 0x1_0000_0000
}
