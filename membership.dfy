/**
 * The membership engine of an entity system, on values: the decision that
 * `change(e)` takes from the entity's bit masks and the system's
 * (`systemBit`, `typeFlags`), and the four transitions it may enter.
 * Each function yields the entity's new bit state and the hooks fired, in order.
 */
module Membership {
  import opened Bits
  import opened Hooks

  /** What `change` reads and writes of one entity. */
  datatype EntityState = EntityState(
    typeBits: Mask,           // component kinds attached
    systemBits: Mask,         // systems the entity is a member of
    systemEnabledBits: Mask,  // systems whose membership is active
    enabled: bool)            // the entity's own on/off switch

  /** The fixed configuration of one system. */
  datatype SystemConfig = SystemConfig(systemBit: Mask, typeFlags: Mask)

  /** The entity's new bit state and the hooks invoked to reach it. */
  datatype Outcome = Outcome(state: EntityState, calls: seq<Call>)

  /** `contains`: the system's bit is among the entity's system bits. */
  predicate Contains(c: SystemConfig, s: EntityState)
  {
    HasAll(s.systemBits, c.systemBit)
  }

  /** `interest`: every bit of the aspect is among the entity's type bits. */
  predicate Interest(c: SystemConfig, s: EntityState)
  {
    HasAll(s.typeBits, c.typeFlags)
  }

  /** `alreadyEnabled`: the system's bit is among the entity's enabled system bits. */
  predicate AlreadyEnabled(c: SystemConfig, s: EntityState)
  {
    HasAll(s.systemEnabledBits, c.systemBit)
  }

  /** `enable(e)`: set the bit in the enabled system bits, then fire `enabled`. */
  function Enable(c: SystemConfig, s: EntityState): (r: Outcome)
    ensures AlreadyEnabled(c, r.state)
    ensures r.state.(systemEnabledBits := s.systemEnabledBits) == s
    ensures s.systemEnabledBits <= r.state.systemEnabledBits <= s.systemEnabledBits + c.systemBit
    ensures r.calls == [Enabled]
  {
    Outcome(s.(systemEnabledBits := s.systemEnabledBits + c.systemBit), [Enabled])
  }

  /** `disable(e)`: clear the bit from the enabled system bits, then fire `disabled`. */
  function Disable(c: SystemConfig, s: EntityState): (r: Outcome)
    ensures r.state.systemEnabledBits !! c.systemBit
    ensures r.state.(systemEnabledBits := s.systemEnabledBits) == s
    ensures s.systemEnabledBits - c.systemBit <= r.state.systemEnabledBits <= s.systemEnabledBits
    ensures r.calls == [Disabled]
  {
    Outcome(s.(systemEnabledBits := s.systemEnabledBits - c.systemBit), [Disabled])
  }

  /** `add(e)`: set the system bit, fire `added`, then enable if the entity itself is enabled. */
  function Add(c: SystemConfig, s: EntityState): (r: Outcome)
    ensures Contains(c, r.state)
    ensures s.enabled ==> AlreadyEnabled(c, r.state)
    ensures !s.enabled ==> r.state.systemEnabledBits == s.systemEnabledBits
    ensures r.state.systemBits == s.systemBits + c.systemBit
    ensures r.state.systemEnabledBits
         == (if s.enabled then s.systemEnabledBits + c.systemBit else s.systemEnabledBits)
    ensures r.state.typeBits == s.typeBits && r.state.enabled == s.enabled
    ensures r.calls == if s.enabled then [Added, Enabled] else [Added]
  {
    var added := s.(systemBits := s.systemBits + c.systemBit);
    if added.enabled then
      var en := Enable(c, added);
      Outcome(en.state, [Added] + en.calls)
    else
      Outcome(added, [Added])
  }

  /**
   * `remove(e)`: clear the system bit, then disable if the entity itself is
   * enabled (not: if the membership was active), then fire `removed`.
   */
  function Remove(c: SystemConfig, s: EntityState): (r: Outcome)
    ensures r.state.systemBits !! c.systemBit
    ensures s.enabled ==> r.state.systemEnabledBits !! c.systemBit
    ensures !s.enabled ==> r.state.systemEnabledBits == s.systemEnabledBits
    ensures r.state.systemBits == s.systemBits - c.systemBit
    ensures r.state.systemEnabledBits
         == (if s.enabled then s.systemEnabledBits - c.systemBit else s.systemEnabledBits)
    ensures r.state.typeBits == s.typeBits && r.state.enabled == s.enabled
    ensures r.calls == if s.enabled then [Disabled, Removed] else [Removed]
  {
    var removed := s.(systemBits := s.systemBits - c.systemBit);
    if removed.enabled then
      var dis := Disable(c, removed);
      Outcome(dis.state, dis.calls + [Removed])
    else
      Outcome(removed, [Removed])
  }

  /** `change(e)`: at most one transition, chosen in the order of the source's `else if` chain. */
  function Change(c: SystemConfig, s: EntityState): (r: Outcome)
    ensures !SignedPositive(c.typeFlags) ==> r == Outcome(s, [])
    ensures r.state.typeBits == s.typeBits && r.state.enabled == s.enabled
    ensures |r.calls| <= 2
  {
    var contains := Contains(c, s);
    var interest := Interest(c, s);
    var alreadyEnabled := AlreadyEnabled(c, s);
    var positive := SignedPositive(c.typeFlags);
    if interest && !contains && positive then Add(c, s)
    else if !interest && contains && positive then Remove(c, s)
    else if interest && contains && !alreadyEnabled && s.enabled && positive then Enable(c, s)
    else if interest && contains && alreadyEnabled && !s.enabled && positive then Disable(c, s)
    else Outcome(s, [])
  }

  /** `n` successive `change(e)` calls with nothing mutated in between. */
  function ChangeRepeated(c: SystemConfig, s: EntityState, n: nat): Outcome
    decreases n
  {
    if n == 0 then Outcome(s, [])
    else
      var first := Change(c, s);
      var rest := ChangeRepeated(c, first.state, n - 1);
      Outcome(rest.state, first.calls + rest.calls)
  }

  /** Active membership implies membership, at this system's bit. */
  predicate ActiveImpliesMember(c: SystemConfig, s: EntityState)
  {
    AlreadyEnabled(c, s) ==> Contains(c, s)
  }

  /** The enabled system bits are a subset of the system bits, at every position. */
  predicate EnabledSubset(s: EntityState)
  {
    s.systemEnabledBits <= s.systemBits
  }

  /** The state that `remove` mishandles: active, globally disabled, and no longer of interest. */
  predicate Stale(c: SystemConfig, s: EntityState)
  {
    AlreadyEnabled(c, s) && !s.enabled && !Interest(c, s)
  }
}
