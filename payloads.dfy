/**
 * The JSON objects the tournament service returns, as far as the core reads
 * them. A key that is missing or JSON `null` is `None`; a list that is
 * missing or `null` is the empty sequence (the source reads every list as
 * `x.get(...) or []`). Identifiers are integers.
 */
module Payloads {
  import opened Wrappers

  /** A `location` object: the keys it has (`city`, `state`, `country`) and their values. */
  type Location = map<string, Option<string>>

  datatype User = User(location: Option<Location>)

  datatype Player = Player(id: Option<int>, gamerTag: Option<string>, user: Option<User>)

  datatype Participant = Participant(gamerTag: Option<string>, user: Option<User>, player: Option<Player>)

  datatype Entrant = Entrant(id: Option<int>, participants: seq<Participant>)

  datatype Seed = Seed(entrant: Option<Entrant>, seedNum: Option<int>)

  datatype Standing = Standing(entrant: Option<Entrant>, placement: Option<int>)

  datatype Slot = Slot(entrant: Option<Entrant>)

  datatype Character = Character(name: Option<string>)

  /**
   * A selection's `selectionValue`. For a float, `text` is Python's `str()` of
   * it, which is carried as data rather than computed.
   */
  datatype SelectionValue = IntValue(n: int) | FloatValue(x: real, text: string) | TextValue(s: string)

  datatype Selection = Selection(
    selectionType: Option<string>,
    selectionValue: Option<SelectionValue>,
    entrant: Option<Entrant>,
    character: Option<Character>)

  datatype Game = Game(selections: seq<Selection>)

  datatype SetNode = SetNode(
    id: Option<int>,
    winnerId: Option<int>,
    slots: seq<Slot>,
    games: seq<Game>,
    fullRoundText: Option<string>,
    round: Option<string>,
    completedAt: Option<int>)

  datatype Tournament = Tournament(name: Option<string>, addrState: Option<string>)

  /** An event; `tournament` is the `_tournament` object attached to it when it was fetched. */
  datatype Event = Event(
    id: Option<int>,
    name: Option<string>,
    startAt: Option<int>,
    numEntrants: Option<int>,
    teamRosterSize: Option<int>,
    entrantSizeMin: Option<int>,
    entrantSizeMax: Option<int>,
    tournament: Option<Tournament>)

  // ----- Python truthiness and `x or {}` -----

  /** `bool(x)` for an optional integer: present and non-zero. */
  predicate IntTruthy(x: Option<int>) {
    x.Some? && x.value != 0
  }

  /** `bool(s)` for an optional string: present and non-empty. */
  predicate TextTruthy(s: Option<string>) {
    s.Some? && s.value != ""
  }

  /** `a or b` for optional strings. */
  function TextOr(a: Option<string>, b: Option<string>): Option<string> {
    if TextTruthy(a) then a else b
  }

  const NoEntrant := Entrant(None, [])
  const NoPlayer := Player(None, None, None)
  const NoTournament := Tournament(None, None)

  /** `x.get("entrant") or {}` */
  function EntrantOf(e: Option<Entrant>): Entrant {
    e.GetOr(NoEntrant)
  }

  /** `x.get("player") or {}` */
  function PlayerOf(p: Option<Player>): Player {
    p.GetOr(NoPlayer)
  }

  /** `(user or {}).get("location") or {}` */
  function LocationOf(u: Option<User>): Location {
    if u.Some? && u.value.location.Some? then u.value.location.value else map[]
  }

  /** `location.get("state")` */
  function StateOf(loc: Location): Option<string> {
    if "state" in loc then loc["state"] else None
  }
}
