/**
 * The per-entity bit state that an entity system reads and writes. The
 * entity class itself belongs to the framework; only the fields and the four
 * setters that `EntitySystem` uses are modelled.
 */
module Entities {
  import opened Bits

  class Entity {
    var typeBits: Mask           // `getTypeBits()`
    var systemBits: Mask         // `getSystemBits()`
    var systemEnabledBits: Mask  // `getSystemEnabledBits()`
    var enabled: bool            // `isEnabled()`

    /** `addSystemBit(bit)`: OR `bit` into the system bits. */
    method AddSystemBit(bit: Mask)
      modifies this`systemBits
      ensures systemBits == old(systemBits) + bit
    {
      systemBits := systemBits + bit;
    }

    /** `removeSystemBit(bit)`: AND-NOT `bit` out of the system bits. */
    method RemoveSystemBit(bit: Mask)
      modifies this`systemBits
      ensures systemBits == old(systemBits) - bit
    {
      systemBits := systemBits - bit;
    }

    /** `addSystemEnabledBit(bit)`: OR `bit` into the enabled system bits. */
    method AddSystemEnabledBit(bit: Mask)
      modifies this`systemEnabledBits
      ensures systemEnabledBits == old(systemEnabledBits) + bit
    {
      systemEnabledBits := systemEnabledBits + bit;
    }

    /** `removeSystemEnabledBit(bit)`: AND-NOT `bit` out of the enabled system bits. */
    method RemoveSystemEnabledBit(bit: Mask)
      modifies this`systemEnabledBits
      ensures systemEnabledBits == old(systemEnabledBits) - bit
    {
      systemEnabledBits := systemEnabledBits - bit;
    }
  }
}
