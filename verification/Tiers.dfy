/** The trust tiers the planner and the authority share. */
module Tiers {
  const READ_ONLY := "READ_ONLY"
  const TRANSACTIONAL := "TRANSACTIONAL"
  const FIDUCIARY := "FIDUCIARY"
}
