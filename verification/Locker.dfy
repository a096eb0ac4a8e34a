/** The mutex of locker.h, for threads of any kind. */
module Locker {

  datatype Mutex<Owner> = Free | HeldBy(owner: Owner)

  /** The three ways a mutex may move with a step of the thread me: untouched, locked or unlocked. */
  predicate LockMove<Owner(==)>(before: Mutex<Owner>, after: Mutex<Owner>, me: Owner, wasIn: bool, isIn: bool)
  {
    || (after == before && wasIn == isIn)
    || (before == Free && after == HeldBy(me) && isIn)
    || (before == HeldBy(me) && after == Free && !isIn)
  }
}
