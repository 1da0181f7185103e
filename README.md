# Artemis `EntitySystem`: membership engine and processing gate

This project models the core of `EntitySystem` in the Artemis entity-component-system framework.

A system declares its interest in some component kinds (its *aspect*) and owns one bit (its *system bit*). Whenever an entity changes, `change(e)` compares the entity's bit masks with the system's. It then enters at most one of four transitions: `add`, `remove`, `enable` or `disable`. Each transition sets or clears the system's bit in one of the entity's masks and fires a lifecycle hook. Separately, `process()` runs `begin`, `processEntities` and `end` on every tick whose `checkProcessing()` holds.

## How the model is built

- **Masks.** A Java `long` mask is modelled as `Bits.Mask`: the set of positions, all below 64, whose bit is 1. OR is union, AND-NOT is difference, and `(mask & bits) == mask` is inclusion. This is exact for 64-bit patterns.
  - The guard `typeFlags > 0` compares a signed `long`. It is `Bits.SignedPositive`: some bit is set and bit 63 is not. `Bits.SignedPositiveIsGreaterThanZero` proves that this is the same as `ToSigned(m) > 0`. `ToSigned` is the two's-complement value of the pattern.
- **The engine on values.** Module `Membership` is the engine as functions. `Change` is the source's `else if` chain, and `Add`, `Remove`, `Enable` and `Disable` are its transitions. Each returns the entity's new bit state and the hooks fired, in order.
- **The properties.** Module `MembershipFacts` proves what `change` promises.
- **The classes.** Module `Systems` holds the class `EntitySystem`. Its methods `Change`, `Add`, `Remove`, `Enable` and `Disable` update an `Entities.Entity` in place, through the entity's four setters. Each method is proved to produce exactly the state and hooks of its function in `Membership`.
  - Every hook invocation is appended to the field `calls`.
  - The `modifies` clauses allow writes only to the entity's `systemBits` and `systemEnabledBits` and to `calls`. `typeBits`, `enabled` and the system's own fields therefore cannot change.
- **The aspect.** Module `Aspect` gives the aspect a system is constructed with: the OR of its kinds' bits. It proves this is the least mask holding every kind's bit, and so interest means "has every required kind".
- **The gate.** Module `Gate` describes what `process()` invokes over a run of ticks.

### Where the code departs from the natural reading

One would expect two things of the code:
- `remove` cascades into `disable` only when the membership was active.
- The enabled bits stay a subset of the system bits at all times, and repeating `change` is idempotent.

The code differs, and the model follows the code.
- `remove` cascades on the entity's own `isEnabled()`. It also clears the system bit before it disables.
- `MembershipFacts.SpuriousDisabledOnRemove` shows a `disabled` hook for a membership that is not active.
- Take an active member that is switched off and loses a required kind before any `change` call. `remove` then leaves its enabled bit set. `MembershipFacts.StaleRemoveBreaksSubset` and `MembershipFacts.StaleWalkThrough` show this. On that reachable path, a later re-add leaves a state in which a second `change`, with nothing mutated, fires `disabled`.
- The subset invariant is therefore proved only for states outside that stale case, and for a system with a single bit (`EnabledSubsetPreserved`). Idempotence is proved under `ActiveImpliesMember`.

One might also read the guard as "aspect non-zero". The code compares a signed `long`, so an aspect with bit 63 set is inert too (`InertAspectIsNoOp`, `SignBitKindMakesAspectNegative`).

## Model

| member | source | states |
|---|---|---|
| `Bits.SignedPositiveIsGreaterThanZero` | src/com/artemis/EntitySystem.java:115 | the guard on the bit pattern (some bit set, bit 63 clear) is exactly Java's signed `typeFlags > 0` |
| `Aspect.TypeFlags` | src/com/artemis/EntitySystem.java:22-27 | the aspect folded from the kinds holds the bit of every given kind; 0 for no kinds |
| `Aspect.TypeFlagsIsLeast` | src/com/artemis/EntitySystem.java:22-27 | the aspect holds no bit beyond the given kinds' bits, so it is exactly their OR |
| `Aspect.InterestIffAllKinds` | src/com/artemis/EntitySystem.java:112 | `interest` holds iff the entity's type bits include the bit of every required kind |
| `Aspect.SignBitKindMakesAspectNegative` | src/com/artemis/EntitySystem.java:22-27 | requiring a kind whose bit is bit 63 makes the aspect a negative `long`, so the system is inert |
| `Gate.TicksAreWholeRounds` | src/com/artemis/EntitySystem.java:39-45 | over any run of ticks the hooks form whole rounds of begin, processEntities, end, one per passing check; `end` runs iff `begin` ran |
| `Gate.Tick` | src/com/artemis/EntitySystem.java:39-45 | one `process()` invokes nothing iff `checkProcessing()` is false; otherwise begin first, processEntities second, end last, and `end` iff `begin` |
| `Membership.Change` | src/com/artemis/EntitySystem.java:110-124 | the `else if` chain on `contains`, `interest`, `alreadyEnabled`, the entity's switch and the signed guard; a non-positive aspect changes nothing, type bits and switch are never written, at most two hooks fire |
| `Membership.Add` | src/com/artemis/EntitySystem.java:126-131 | afterwards the entity is a member, the system bit being ORed into the system bits; it is also active if the entity is enabled (the bit ORed into the enabled bits), else its enabled bits are untouched; hooks are `added`, then `enabled` iff enabled |
| `Membership.Enable` | src/com/artemis/EntitySystem.java:133-136 | afterwards the membership is active; only the enabled bits change, and only by the system bit; the hook is `enabled` |
| `Membership.Remove` | src/com/artemis/EntitySystem.java:138-143 | afterwards the entity is no member, the system bit being AND-NOTed out of the system bits; if the entity is enabled the bit is also AND-NOTed out of the enabled bits, else those are untouched; hooks are `disabled` iff enabled, then `removed` |
| `Membership.Disable` | src/com/artemis/EntitySystem.java:145-148 | afterwards no bit of the system is among the enabled bits; only those bits change, and only by the system bit; the hook is `disabled` |
| `MembershipFacts.NoOpOtherwise` | src/com/artemis/EntitySystem.java:115-123 | with a positive aspect and none of the four guards true, `change` writes no bit and fires no hook |
| `MembershipFacts.InertAspectIsNoOp` | src/com/artemis/EntitySystem.java:115-122 | with `typeFlags <= 0` as a signed value, `change` writes no bit and fires no hook |
| `MembershipFacts.AddTransition` | src/com/artemis/EntitySystem.java:126-136 | on interest without membership: the system bit is set and `added` fires; `enabled` follows it, with its bit set, iff the entity is enabled |
| `MembershipFacts.RemoveTransition` | src/com/artemis/EntitySystem.java:138-148 | on membership without interest: the system bit is cleared and `removed` fires last; `disabled` and the cleared enabled bit come first iff the entity itself is enabled |
| `MembershipFacts.EnableTransition` | src/com/artemis/EntitySystem.java:119-120 | a member with interest, not active, entity enabled: only the enabled bit is set and only `enabled` fires |
| `MembershipFacts.DisableTransition` | src/com/artemis/EntitySystem.java:121-122 | an active member with interest, entity disabled: only the enabled bit is cleared and only `disabled` fires |
| `MembershipFacts.AtMostOneTransition` | src/com/artemis/EntitySystem.java:115-122 | one call adds at most two hooks; each of `added`, `enabled`, `disabled`, `removed` appears exactly on the rows that fire it; with a nonzero system bit, hooks fire iff a bit changes |
| `MembershipFacts.ChangeOnlyTouchesSystemBit` | src/com/artemis/EntitySystem.java:126-148 | `change` never alters the type bits, the enabled flag, or any position other than the system's own bit |
| `MembershipFacts.OtherSystemUnaffected` | src/com/artemis/EntitySystem.java:126-148 | a system with a disjoint bit sees the same `contains`, `alreadyEnabled` and `interest` after this system's `change` |
| `MembershipFacts.ChangeEstablishesMembership` | src/com/artemis/EntitySystem.java:110-124 | with a positive aspect and a nonzero system bit, membership holds after `change` iff interest |
| `MembershipFacts.ChangeIsIdempotent` | src/com/artemis/EntitySystem.java:110-148 | with a nonzero system bit and active implying member, a second `change` fires no hook and writes no bit |
| `MembershipFacts.ChangeSettles` | src/com/artemis/EntitySystem.java:110-148 | with a nonzero system bit and active implying member, any positive number of repeated `change` calls has exactly the effect and hooks of one |
| `MembershipFacts.EnabledSubsetPreserved` | src/com/artemis/EntitySystem.java:126-148 | for a single-bit system and a state that is not stale, `change` keeps enabled bits inside system bits |
| `MembershipFacts.StaleRemoveBreaksSubset` | src/com/artemis/EntitySystem.java:138-143 | in the stale state `remove` fires only `removed` and leaves an enabled bit outside the system bits |
| `MembershipFacts.SpuriousDisabledOnRemove` | src/com/artemis/EntitySystem.java:138-143 | an enabled entity that is a member but not active gets `disabled` then `removed` on losing interest |
| `MembershipFacts.MembershipWalkThrough` | src/com/artemis/EntitySystem.java:110-148 | attach A: nothing; attach B: added, enabled; switch off: disabled; drop A: removed; re-attach A switched off: added only |
| `MembershipFacts.StaleWalkThrough` | src/com/artemis/EntitySystem.java:110-148 | switching off and dropping A between calls leaves a stale enabled bit; after re-adding, an unmutated second `change` fires `disabled` |
| `Entities.Entity.AddSystemBit` | src/com/artemis/EntitySystem.java:127 | `addSystemBit` ORs the bit into the system bits (assumed of the entity) |
| `Entities.Entity.RemoveSystemBit` | src/com/artemis/EntitySystem.java:139 | `removeSystemBit` AND-NOTs the bit out of the system bits (assumed of the entity) |
| `Entities.Entity.AddSystemEnabledBit` | src/com/artemis/EntitySystem.java:134 | `addSystemEnabledBit` ORs the bit into the enabled system bits (assumed of the entity) |
| `Entities.Entity.RemoveSystemEnabledBit` | src/com/artemis/EntitySystem.java:146 | `removeSystemEnabledBit` AND-NOTs the bit out of the enabled system bits (assumed of the entity) |
| `Systems.EntitySystem.constructor` | src/com/artemis/EntitySystem.java:22-27 | the loop leaves `typeFlags` equal to the OR of the kinds' bits, 0 for none |
| `Systems.EntitySystem.SetSystemBit` | src/com/artemis/EntitySystem.java:29-31 | the system bit becomes the given bit |
| `Systems.EntitySystem.Invoke` | src/com/artemis/EntitySystem.java:80-108 | invoking a hook appends exactly that hook to the trace |
| `Systems.EntitySystem.Process` | src/com/artemis/EntitySystem.java:39-45 | no hook when `checkProcessing()` is false; else exactly begin, processEntities, end in that order |
| `Systems.EntitySystem.Change` | src/com/artemis/EntitySystem.java:110-124 | the entity's new bits and the appended hooks are those of the `else if` chain on the three booleans and the signed guard |
| `Systems.EntitySystem.Add` | src/com/artemis/EntitySystem.java:126-131 | sets the system bit, fires `added`, then enables iff the entity is enabled |
| `Systems.EntitySystem.Enable` | src/com/artemis/EntitySystem.java:133-136 | sets the enabled system bit, then fires `enabled` |
| `Systems.EntitySystem.Remove` | src/com/artemis/EntitySystem.java:138-143 | clears the system bit, disables iff the entity is enabled, then fires `removed` |
| `Systems.EntitySystem.Disable` | src/com/artemis/EntitySystem.java:145-148 | clears the enabled system bit, then fires `disabled` |
| `Systems.EntitySystem.GetMergedTypes` | src/com/artemis/EntitySystem.java:162-169 | a new array of length 1 + the others' length, the required kind first and the others after it in order |

## Left out

- `Entity.java` is not part of this model. Only the entity's four mask fields, its enabled flag and the four setters `EntitySystem` calls are modelled. The setters are taken to be OR and AND-NOT, and the getters to return the fields.
- `World` and `ComponentTypeManager` are not part of this model. A component kind is an opaque id, and the registry's `getTypeFor(type).getBit()` is the parameter `bitFor`. Java reflection and generics are left out.
- `setWorld` and the `world` field: wiring with no behaviour of its own.
- Hook bodies. The bodies of `added`, `enabled`, `disabled`, `removed`, `begin`, `end` and the abstract `processEntities` are subclass business. Only their invocation and its order are recorded, in `calls`. Hook bodies are taken not to change the entity, which the ordering and idempotence results rely on, since `add` reads `isEnabled()` after `added(e)` has run. The entity passed to the four lifecycle hooks is not recorded.
- `initialize` is an empty extension point that this class never calls.
- `checkProcessing`: its result is the input `checkProcessing` of `Process`. The default `true` and subclass overrides are not modelled.
- The no-argument constructor is not a separate member. It leaves `typeFlags` at 0, which is what the modelled constructor gives for no kinds.
- `GetMergedTypes`: Java's `null` arrays and `null` elements are not modelled.
- Ordering across systems and threading: the code is single-threaded and makes no promise across systems.
