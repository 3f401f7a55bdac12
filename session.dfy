/**
 * The session state and the reason reported with it (src/manager.rs:89-103). The simulator
 * produces both, so they live in a module of their own that the simulator and the manager share.
 */
module Session {

  datatype CurrentState = Unlocked | Locked | Unlockable

  datatype CurrentStateReason =
    | BreakTimer
    | RequirementNotMet(id: nat)
    | LockedTimeRange(id: nat)
    | NoConstraints
}
