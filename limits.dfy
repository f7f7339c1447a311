/**
 * Limits.rb: an immutable warning/critical threshold pair, one per
 * resource category.  The class has readers only, so a datatype value is
 * exactly as mutable as the original object.
 */
module Limits {

  /** `Limits.new(warn, crit)`: no ordering between the two is checked. */
  datatype Limits = Limits(warningLimit: real, criticalLimit: real)

  /**
   * The constructor accepts every pair, including `warn > crit`, and the two
   * readers hand back exactly what was given.
   */
  lemma ReadersReturnConstructorArguments(warn: real, crit: real)
    ensures Limits(warn, crit).warningLimit == warn
    ensures Limits(warn, crit).criticalLimit == crit
  {
  }
}
