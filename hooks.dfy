/** The overridable extension points of an entity system, recorded in the order they are invoked. */
module Hooks {

  /** One invocation of an extension point; its body is the subclass's business. */
  datatype Call =
    | Added            // `added(e)`: the entity became a member
    | Enabled          // `enabled(e)`: the entity's membership became active
    | Disabled         // `disabled(e)`: the entity's membership became inactive
    | Removed          // `removed(e)`: the entity stopped being a member
    | Begin            // `begin()`: per-tick setup
    | ProcessEntities  // `processEntities()`: the per-tick processing body
    | End              // `end()`: per-tick teardown
}
