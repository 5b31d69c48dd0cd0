/** The parts of the account records that the recommendation endpoint reads. */
module Users {
  /** An account's `_id`. */
  type UserId = string

  /** A stored account, with the fields the internal ranking filters and sorts on. */
  datatype User = User(
    id: UserId,
    updatedAt: int,        // milliseconds since the epoch
    followersCount: int,
    followingCount: int,
    notesCount: int,
    isBot: bool)

  /** The authenticated requester (`me`). */
  datatype LocalUser = LocalUser(id: UserId, username: string)
}
