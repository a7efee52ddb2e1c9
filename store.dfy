/** The persistent store as the two route files see it: participants, games and the
    join rows linking them, kept as in-memory sequences in insertion order.
    Identifiers are strings the store generates; timestamps are natural numbers. */
module Store {
  import opened Base

  /** The game status enumeration. */
  datatype Status = Waiting | Active | Completed | Cancelled

  /** The status as spelled in requests and responses. */
  function StatusName(s: Status): string {
    match s
    case Waiting => "waiting"
    case Active => "active"
    case Completed => "completed"
    case Cancelled => "cancelled"
  }

  /** The store's reading of a status string: one of the four names, or nothing. */
  function ParseStatus(s: string): (r: Option<Status>)
    ensures r.Some? ==> StatusName(r.value) == s
    ensures r.None? ==> forall st: Status :: StatusName(st) != s
  {
    if s == "waiting" then Some(Waiting)
    else if s == "active" then Some(Active)
    else if s == "completed" then Some(Completed)
    else if s == "cancelled" then Some(Cancelled)
    else None
  }

  lemma ParseStatusName(st: Status)
    ensures ParseStatus(StatusName(st)) == Some(st)
  {
  }

  /** A game still holds its participants while it is waiting or being played. */
  predicate Open(s: Status) {
    s == Waiting || s == Active
  }

  datatype Participant = Participant(
    id: string,
    name: string,
    email: Option<string>,
    phone: Option<string>,
    selfieUrl: Option<string>,
    createdAt: nat)

  datatype Game = Game(
    id: string,
    name: string,
    status: Status,
    maxParticipants: int,
    currentParticipants: nat,
    createdAt: nat)

  /** The join entity: one participant's place in one game. */
  datatype GameParticipant = GameParticipant(
    gameId: string,
    participantId: string,
    joinedAt: nat)

  datatype Db = Db(
    participants: seq<Participant>,
    games: seq<Game>,
    joins: seq<GameParticipant>)

  function Id(p: Participant): string {
    p.id
  }

  /** Identifiers are primary keys: no two participants share one. */
  predicate UniqueParticipantIds(db: Db) {
    DistinctBy(db.participants, Id)
  }

  /** The join row points at a game that is waiting or active. */
  predicate LinksOpenGame(db: Db, j: GameParticipant) {
    exists g :: g in db.games && g.id == j.gameId && Open(g.status)
  }
}
