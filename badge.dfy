/** Badge.swift: a plain record, carried by `User.badges`. */
module Badges {
  import opened Wrappers

  datatype BadgeType = Environmental | Social | Governance | Special | Milestone

  /** Dates are seconds since the epoch. */
  datatype Badge = Badge(
    id: string,
    title: string,
    icon: string,
    description: string,
    badgeType: BadgeType,
    pointsRequired: int,
    isUnlocked: bool := false,
    unlockedDate: Option<int> := None)
}
