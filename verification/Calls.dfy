module Calls {

  /** A call to another system: one that succeeds, one that fails without effect, one whose effect is kept but whose
      reply is lost. */
  datatype Fate = Done | FailsBefore | FailsAfter
}
