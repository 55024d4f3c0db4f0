/** Identifiers of persisted entities. The database assigns them; the model only needs
    them to be comparable. */
module Ids {
  type UserId = nat
  type RoomId = nat
  type MatchId = nat
  type ConversationId = nat
  type InvitationId = nat
  type ReportId = nat

  /** Timestamps and durations, in milliseconds. */
  type Millis = int
}
