/** A system's aspect: the OR of the bits of the component kinds it requires. */
module Aspect {
  import opened Bits

  /** A component kind, identified by its class name. */
  datatype ComponentKind = ComponentKind(name: string)

  /**
   * The aspect a system built from `types` holds: starting from 0, the bit
   * of each kind ORed in, in order. `bitFor` is the type registry's lookup.
   */
  function TypeFlags(types: seq<ComponentKind>, bitFor: ComponentKind -> Mask): (flags: Mask)
    ensures forall i :: 0 <= i < |types| ==> HasAll(flags, bitFor(types[i]))
    decreases |types|
  {
    if types == [] then {}
    else TypeFlags(types[..|types| - 1], bitFor) + bitFor(types[|types| - 1])
  }

  /** The aspect holds no bit that is not the bit of some required kind. */
  lemma {:induction false} TypeFlagsIsLeast(types: seq<ComponentKind>, bitFor: ComponentKind -> Mask, mask: Mask)
    requires forall i :: 0 <= i < |types| ==> HasAll(mask, bitFor(types[i]))
    ensures HasAll(mask, TypeFlags(types, bitFor))
    decreases |types|
  {
    if types != [] {
      var init := types[..|types| - 1];
      assert forall i :: 0 <= i < |init| ==> init[i] == types[i];
      TypeFlagsIsLeast(init, bitFor, mask);
    }
  }

  /** An entity's type bits match the aspect iff they hold the bit of every required kind. */
  lemma {:induction false} InterestIffAllKinds(types: seq<ComponentKind>, bitFor: ComponentKind -> Mask, typeBits: Mask)
    ensures HasAll(typeBits, TypeFlags(types, bitFor))
        <==> forall i :: 0 <= i < |types| ==> HasAll(typeBits, bitFor(types[i]))
  {
    if forall i :: 0 <= i < |types| ==> HasAll(typeBits, bitFor(types[i])) {
      TypeFlagsIsLeast(types, bitFor, typeBits);
    }
  }

  /** Requiring a kind whose bit is the sign bit makes the aspect a negative `long`. */
  lemma SignBitKindMakesAspectNegative(types: seq<ComponentKind>, bitFor: ComponentKind -> Mask, k: nat)
    requires k < |types| && SignPosition in bitFor(types[k])
    ensures !SignedPositive(TypeFlags(types, bitFor))
    ensures ToSigned(TypeFlags(types, bitFor)) < 0
  {
    ValueBelowBound(TypeFlags(types, bitFor), SignPosition);
  }
}
