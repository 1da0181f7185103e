/**
 * `EntitySystem`: a system's fixed bit and aspect, the membership engine
 * that `change(e)` runs on one entity, and the per-tick processing gate.
 * The overridable hooks are recorded, in invocation order, in `calls`.
 */
module Systems {
  import opened Bits
  import opened Hooks
  import opened Aspect
  import opened Entities
  import M = Membership
  import Gate

  /** An entity's bit state, as the value the membership engine works on. */
  function StateOf(e: Entity): M.EntityState
    reads e
  {
    M.EntityState(e.typeBits, e.systemBits, e.systemEnabledBits, e.enabled)
  }

  class EntitySystem {
    var systemBit: Mask
    var typeFlags: Mask
    /** Every hook invoked on this system so far, oldest first. */
    var calls: seq<Call>

    /** The configuration `change` decides by. */
    function Config(): M.SystemConfig
      reads this`systemBit, this`typeFlags
    {
      M.SystemConfig(systemBit, typeFlags)
    }

    /**
     * The varargs constructor: the aspect is the OR of the bits of `types`,
     * 0 for none (which is also what the no-argument constructor leaves).
     */
    constructor (types: seq<ComponentKind>, bitFor: ComponentKind -> Mask)
      ensures typeFlags == TypeFlags(types, bitFor)
      ensures forall i :: 0 <= i < |types| ==> HasAll(typeFlags, bitFor(types[i]))
      ensures types == [] ==> typeFlags == {}
      ensures systemBit == {} && calls == []
    {
      systemBit := {};
      calls := [];
      typeFlags := {};
      new;
      for i := 0 to |types|
        modifies this`typeFlags
        invariant typeFlags == TypeFlags(types[..i], bitFor)
      {
        assert types[..i + 1][..i] == types[..i];
        typeFlags := typeFlags + bitFor(types[i]);
      }
      assert types[..|types|] == types;
    }

    /** `setSystemBit(bit)`: the world hands the system its bit. */
    method SetSystemBit(bit: Mask)
      modifies this`systemBit
      ensures systemBit == bit
    {
      systemBit := bit;
    }

    /** Invokes the overridable hook `h`; only the invocation is modelled. */
    method Invoke(h: Call)
      modifies this`calls
      ensures calls == old(calls) + [h]
    {
      calls := calls + [h];
    }

    /** `process()`: begin, the processing body and end, all three or none, as `checkProcessing()` says. */
    method Process(checkProcessing: bool)
      modifies this`calls
      ensures !checkProcessing ==> calls == old(calls)
      ensures checkProcessing ==> calls == old(calls) + [Begin, ProcessEntities, End]
      ensures calls == old(calls) + Gate.Tick(checkProcessing)
    {
      if checkProcessing {
        Invoke(Begin);
        Invoke(ProcessEntities);
        Invoke(End);
      }
    }

    /** `change(e)`: recompute the three booleans and enter at most one transition. */
    method Change(e: Entity)
      modifies e`systemBits, e`systemEnabledBits, this`calls
      ensures StateOf(e) == M.Change(Config(), old(StateOf(e))).state
      ensures calls == old(calls) + M.Change(Config(), old(StateOf(e))).calls
    {
      var contains := HasAll(e.systemBits, systemBit);
      var interest := HasAll(e.typeBits, typeFlags);
      var alreadyEnabled := HasAll(e.systemEnabledBits, systemBit);

      if interest && !contains && SignedPositive(typeFlags) {
        Add(e);
      } else if !interest && contains && SignedPositive(typeFlags) {
        Remove(e);
      } else if interest && contains && !alreadyEnabled && e.enabled && SignedPositive(typeFlags) {
        Enable(e);
      } else if interest && contains && alreadyEnabled && !e.enabled && SignedPositive(typeFlags) {
        Disable(e);
      }
    }

    /** `add(e)`: set the system bit, fire `added`, and cascade into `enable` if the entity is enabled. */
    method Add(e: Entity)
      modifies e`systemBits, e`systemEnabledBits, this`calls
      ensures StateOf(e) == M.Add(Config(), old(StateOf(e))).state
      ensures calls == old(calls) + M.Add(Config(), old(StateOf(e))).calls
    {
      e.AddSystemBit(systemBit);
      Invoke(Added);
      if e.enabled {
        Enable(e);
      }
    }

    /** `enable(e)`: set the enabled system bit and fire `enabled`. */
    method Enable(e: Entity)
      modifies e`systemEnabledBits, this`calls
      ensures StateOf(e) == M.Enable(Config(), old(StateOf(e))).state
      ensures calls == old(calls) + M.Enable(Config(), old(StateOf(e))).calls
    {
      e.AddSystemEnabledBit(systemBit);
      Invoke(Enabled);
    }

    /**
     * `remove(e)`: clear the system bit, cascade into `disable` if the entity
     * is enabled, and fire `removed` last.
     */
    method Remove(e: Entity)
      modifies e`systemBits, e`systemEnabledBits, this`calls
      ensures StateOf(e) == M.Remove(Config(), old(StateOf(e))).state
      ensures calls == old(calls) + M.Remove(Config(), old(StateOf(e))).calls
    {
      e.RemoveSystemBit(systemBit);
      if e.enabled {
        Disable(e);
      }
      Invoke(Removed);
    }

    /** `disable(e)`: clear the enabled system bit and fire `disabled`. */
    method Disable(e: Entity)
      modifies e`systemEnabledBits, this`calls
      ensures StateOf(e) == M.Disable(Config(), old(StateOf(e))).state
      ensures calls == old(calls) + M.Disable(Config(), old(StateOf(e))).calls
    {
      e.RemoveSystemEnabledBit(systemBit);
      Invoke(Disabled);
    }

    /** `getMergedTypes(requiredType, otherTypes)`: a new array, the required kind first, then the others in order. */
    static method GetMergedTypes(requiredType: ComponentKind, otherTypes: array<ComponentKind>)
      returns (types: array<ComponentKind>)
      ensures fresh(types)
      ensures types.Length == 1 + otherTypes.Length
      ensures types[0] == requiredType
      ensures forall i :: 0 <= i < otherTypes.Length ==> types[i + 1] == otherTypes[i]
      ensures types[..] == [requiredType] + otherTypes[..]
    {
      types := new ComponentKind[1 + otherTypes.Length];
      types[0] := requiredType;
      for i := 0 to otherTypes.Length
        invariant types[0] == requiredType
        invariant forall j :: 0 <= j < i ==> types[j + 1] == otherTypes[j]
      {
        types[i + 1] := otherTypes[i];
      }
      assert types[..] == [requiredType] + otherTypes[..];
    }
  }
}
