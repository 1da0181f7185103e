/** What `change(e)` promises, proved of the membership engine's functions. */
module MembershipFacts {
  import opened Bits
  import opened Hooks
  import opened Membership

  /** An aspect that is not a positive `long` (zero, or bit 63 set) makes `change` do nothing. */
  lemma InertAspectIsNoOp(c: SystemConfig, s: EntityState)
    requires ToSigned(c.typeFlags) <= 0
    ensures Change(c, s) == Outcome(s, [])
  {
    SignedPositiveIsGreaterThanZero(c.typeFlags);
  }

  /** A fresh match: the system bit is set, `added` fires, and `enabled` follows it iff the entity is enabled. */
  lemma AddTransition(c: SystemConfig, s: EntityState)
    requires SignedPositive(c.typeFlags) && Interest(c, s) && !Contains(c, s)
    ensures var o := Change(c, s);
      && o.state.systemBits == s.systemBits + c.systemBit
      && o.calls == (if s.enabled then [Added, Enabled] else [Added])
      && o.state.systemEnabledBits
         == (if s.enabled then s.systemEnabledBits + c.systemBit else s.systemEnabledBits)
  {
  }

  /**
   * A lost match: the system bit is cleared and `removed` fires last; the
   * enabled bit is cleared and `disabled` fires first iff the entity itself is
   * enabled, whatever the membership's own active state.
   */
  lemma RemoveTransition(c: SystemConfig, s: EntityState)
    requires SignedPositive(c.typeFlags) && !Interest(c, s) && Contains(c, s)
    ensures var o := Change(c, s);
      && o.state.systemBits == s.systemBits - c.systemBit
      && o.calls == (if s.enabled then [Disabled, Removed] else [Removed])
      && o.state.systemEnabledBits
         == (if s.enabled then s.systemEnabledBits - c.systemBit else s.systemEnabledBits)
  {
  }

  /** A member whose switch was turned on: only the enabled bit is set and `enabled` fires. */
  lemma EnableTransition(c: SystemConfig, s: EntityState)
    requires SignedPositive(c.typeFlags) && Interest(c, s) && Contains(c, s)
    requires !AlreadyEnabled(c, s) && s.enabled
    ensures Change(c, s)
      == Outcome(s.(systemEnabledBits := s.systemEnabledBits + c.systemBit), [Enabled])
  {
  }

  /** An active member whose switch was turned off: only the enabled bit is cleared and `disabled` fires. */
  lemma DisableTransition(c: SystemConfig, s: EntityState)
    requires SignedPositive(c.typeFlags) && Interest(c, s) && Contains(c, s)
    requires AlreadyEnabled(c, s) && !s.enabled
    ensures Change(c, s)
      == Outcome(s.(systemEnabledBits := s.systemEnabledBits - c.systemBit), [Disabled])
  {
  }

  /**
   * At most one transition is entered: the trace gains at most two calls,
   * each hook appears exactly on the rows that fire it (`enabled` also after
   * `added`, `disabled` also before `removed`),
   * and, for a nonzero system bit, a call happens iff a bit changes.
   */
  lemma AtMostOneTransition(c: SystemConfig, s: EntityState)
    ensures var o := Change(c, s);
      && |o.calls| <= 2
      && (o.calls != [] ==> SignedPositive(c.typeFlags))
      && (c.systemBit != {} ==> (o.calls == [] <==> o.state == s))
      && (Added in o.calls <==> SignedPositive(c.typeFlags) && Interest(c, s) && !Contains(c, s))
      && (Removed in o.calls <==> SignedPositive(c.typeFlags) && !Interest(c, s) && Contains(c, s))
      && (Enabled in o.calls <==> SignedPositive(c.typeFlags) && Interest(c, s) && s.enabled
                                  && (!Contains(c, s) || !AlreadyEnabled(c, s)))
      && (Disabled in o.calls <==> SignedPositive(c.typeFlags) && Contains(c, s)
                                   && ((!Interest(c, s) && s.enabled)
                                       || (Interest(c, s) && AlreadyEnabled(c, s) && !s.enabled)))
      && Begin !in o.calls && ProcessEntities !in o.calls && End !in o.calls
  {
  }

  /**
   * With a live aspect, when none of the four guards holds (a member already
   * in step with the entity's switch, or a non-member without interest),
   * `change` writes nothing and fires nothing.
   */
  lemma NoOpOtherwise(c: SystemConfig, s: EntityState)
    requires SignedPositive(c.typeFlags)
    requires !(Interest(c, s) && !Contains(c, s))
    requires !(!Interest(c, s) && Contains(c, s))
    requires !(Interest(c, s) && Contains(c, s) && !AlreadyEnabled(c, s) && s.enabled)
    requires !(Interest(c, s) && Contains(c, s) && AlreadyEnabled(c, s) && !s.enabled)
    ensures Change(c, s) == Outcome(s, [])
  {
  }

  /**
   * `change` never writes the type bits or the entity's switch, and never
   * writes any position of the system bit sets other than the system's own.
   */
  lemma ChangeOnlyTouchesSystemBit(c: SystemConfig, s: EntityState)
    ensures var t := Change(c, s).state;
      && t.typeBits == s.typeBits
      && t.enabled == s.enabled
      && t.systemBits - c.systemBit == s.systemBits - c.systemBit
      && t.systemEnabledBits - c.systemBit == s.systemEnabledBits - c.systemBit
  {
  }

  /** Systems with disjoint bits do not see each other's `change`. */
  lemma OtherSystemUnaffected(c: SystemConfig, other: SystemConfig, s: EntityState)
    requires c.systemBit !! other.systemBit
    ensures var t := Change(c, s).state;
      && Contains(other, t) == Contains(other, s)
      && AlreadyEnabled(other, t) == AlreadyEnabled(other, s)
      && Interest(other, t) == Interest(other, s)
  {
  }

  /** Right after `change`, with a live aspect and a nonzero system bit, membership holds iff interest. */
  lemma ChangeEstablishesMembership(c: SystemConfig, s: EntityState)
    requires SignedPositive(c.typeFlags) && c.systemBit != {}
    ensures Contains(c, Change(c, s).state) <==> Interest(c, s)
  {
  }

  /**
   * A second `change` with nothing mutated in between fires no hook and writes
   * no bit, provided the membership was not active without being a member.
   */
  lemma ChangeIsIdempotent(c: SystemConfig, s: EntityState)
    requires c.systemBit != {}
    requires ActiveImpliesMember(c, s)
    ensures var t := Change(c, s).state;
      Change(c, t) == Outcome(t, [])
  {
  }

  /** Once `change` has nothing to do, any number of further calls has nothing to do. */
  lemma {:induction false} QuiescentStaysQuiescent(c: SystemConfig, s: EntityState, n: nat)
    requires Change(c, s) == Outcome(s, [])
    ensures ChangeRepeated(c, s, n) == Outcome(s, [])
    decreases n
  {
    if n > 0 {
      QuiescentStaysQuiescent(c, s, n - 1);
    }
  }

  /** Calling `change` any positive number of times is the same as calling it once. */
  lemma ChangeSettles(c: SystemConfig, s: EntityState, n: nat)
    requires n >= 1 && c.systemBit != {}
    requires ActiveImpliesMember(c, s)
    ensures ChangeRepeated(c, s, n) == Change(c, s)
  {
    var first := Change(c, s);
    ChangeIsIdempotent(c, s);
    QuiescentStaysQuiescent(c, first.state, n - 1);
    assert first.calls + [] == first.calls;
  }

  /**
   * `change` keeps the enabled bits inside the system bits, for a single-bit
   * system and an entity that is not in the stale state.
   */
  lemma EnabledSubsetPreserved(c: SystemConfig, s: EntityState)
    requires IsSingleBit(c.systemBit)
    requires EnabledSubset(s)
    requires !Stale(c, s)
    ensures EnabledSubset(Change(c, s).state)
  {
  }

  /**
   * The stale state breaks the subset: `remove` clears the system bit but,
   * the entity being switched off, leaves the enabled bit set.
   */
  lemma StaleRemoveBreaksSubset(c: SystemConfig, s: EntityState)
    requires SignedPositive(c.typeFlags) && c.systemBit != {}
    requires EnabledSubset(s) && Stale(c, s)
    ensures !EnabledSubset(Change(c, s).state)
    ensures Change(c, s).calls == [Removed]
  {
  }

  /**
   * A member that is not active but whose switch is on gets a `disabled` hook
   * that no `enabled` hook preceded, when it loses interest.
   */
  lemma SpuriousDisabledOnRemove(c: SystemConfig, s: EntityState)
    requires SignedPositive(c.typeFlags) && c.systemBit != {}
    requires Contains(c, s) && !AlreadyEnabled(c, s) && s.enabled && !Interest(c, s)
    ensures Change(c, s).calls == [Disabled, Removed]
  {
  }

  /** A system at bit 5 that requires the component kinds at bits 0 (A) and 1 (B). */
  const SystemAB := SystemConfig({5}, {0, 1})

  /**
   * A walk-through: attach A (nothing), attach B (added, then
   * enabled), switch the entity off (disabled), drop A (removed, no second
   * disabled), re-attach A while switched off (added only).
   */
  lemma MembershipWalkThrough()
    ensures Change(SystemAB, EntityState({0}, {}, {}, true))
         == Outcome(EntityState({0}, {}, {}, true), [])
    ensures Change(SystemAB, EntityState({0, 1}, {}, {}, true))
         == Outcome(EntityState({0, 1}, {5}, {5}, true), [Added, Enabled])
    ensures Change(SystemAB, EntityState({0, 1}, {5}, {5}, false))
         == Outcome(EntityState({0, 1}, {5}, {}, false), [Disabled])
    ensures Change(SystemAB, EntityState({1}, {5}, {}, false))
         == Outcome(EntityState({1}, {}, {}, false), [Removed])
    ensures Change(SystemAB, EntityState({0, 1}, {}, {}, false))
         == Outcome(EntityState({0, 1}, {5}, {}, false), [Added])
  {
  }

  /**
   * The same walk-through with the switch turned off and A dropped before
   * any `change` in between: `remove` leaves the enabled bit behind, the
   * re-attach adds without enabling, and the next `change`, with nothing
   * mutated, fires `disabled`, so neither the subset nor idempotence holds
   * on this reachable path.
   */
  lemma StaleWalkThrough()
    ensures Change(SystemAB, EntityState({0, 1}, {}, {}, true))
         == Outcome(EntityState({0, 1}, {5}, {5}, true), [Added, Enabled])
    ensures Change(SystemAB, EntityState({1}, {5}, {5}, false))
         == Outcome(EntityState({1}, {}, {5}, false), [Removed])
    ensures !EnabledSubset(EntityState({1}, {}, {5}, false))
    ensures Change(SystemAB, EntityState({0, 1}, {}, {5}, false))
         == Outcome(EntityState({0, 1}, {5}, {5}, false), [Added])
    ensures Change(SystemAB, EntityState({0, 1}, {5}, {5}, false))
         == Outcome(EntityState({0, 1}, {5}, {}, false), [Disabled])
  {
  }
}
