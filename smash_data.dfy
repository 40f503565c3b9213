/**
 * The join of one event's seeds, standings and sets into one record per
 * player (`build_player_event_results`), with the records it produces and
 * the small filters beside it.
 */
module SmashData {
  import opened Wrappers
  import opened Text
  import opened Dicts
  import opened Payloads

  /**
   * An entrant key, `str(entrant.get("id"))`. Different ids give different
   * text and a missing id gives `"None"`, which no integer gives, so the key is
   * the optional id itself. Comparing `str(winnerId)` with a key is comparing
   * `Some(winnerId)` with it.
   */
  type Key = Option<int>

  /** One set seen from one player's side. */
  datatype SetRecord = SetRecord(
    setId: Key,
    won: Option<bool>,
    opponentEntrantId: Key,
    opponentPlayerIds: seq<int>,
    opponentGamerTags: seq<string>,
    opponentSeed: Option<int>,
    opponentPlacement: Option<int>,
    roundText: Option<string>,
    completedAt: Option<int>,
    characters: seq<string>)

  /** One player's participation in one event. */
  datatype PlayerEventResult = PlayerEventResult(
    playerId: int,
    gamerTag: string,
    entrantId: Key,
    seedNum: Option<int>,
    placement: Option<int>,
    participant: Participant,
    event: Event,
    tournament: Tournament,
    sets: seq<SetRecord>)

  /** Everything fetched for one event. */
  datatype EventBundle = EventBundle(event: Event, seeds: seq<Seed>, standings: seq<Standing>, sets: seq<SetNode>)

  // ===================== PlayerEventResult.location =====================

  function PlayerUserLocation(r: PlayerEventResult): Location {
    LocationOf(PlayerOf(r.participant.player).user)
  }

  function ParticipantUserLocation(r: PlayerEventResult): Location {
    LocationOf(r.participant.user)
  }

  /** The player's own user location when it has any key, else the participant's user location, else `{}`. */
  function ResultLocation(r: PlayerEventResult): (loc: Location)
    ensures PlayerUserLocation(r) != map[] ==> loc == PlayerUserLocation(r)
    ensures PlayerUserLocation(r) == map[] ==> loc == ParticipantUserLocation(r)
    ensures loc == map[] <==> PlayerUserLocation(r) == map[] && ParticipantUserLocation(r) == map[]
  {
    var player := PlayerOf(r.participant.player);
    var location := if player.user.Some? then player.user.value.location else None;
    if location.Some? && location.value != map[] then location.value
    else LocationOf(r.participant.user)
  }

  // ===================== is_singles_event =====================

  /**
   * An event is singles unless its minimum or maximum entrant size is given and
   * is not 1, or its team roster size is given, non-zero and not 1.
   */
  function IsSinglesEvent(event: Event): (singles: bool)
    ensures !singles <==>
      || (event.entrantSizeMin.Some? && event.entrantSizeMin.value != 1)
      || (event.entrantSizeMax.Some? && event.entrantSizeMax.value != 1)
      || (event.teamRosterSize.Some? && event.teamRosterSize.value !in {0, 1})
  {
    var entrantMin := event.entrantSizeMin;
    var entrantMax := event.entrantSizeMax;
    var teamSize := event.teamRosterSize;
    if entrantMin != None && entrantMin != Some(1) then false
    else if entrantMax != None && entrantMax != Some(1) then false
    else if IntTruthy(teamSize) && teamSize != Some(1) then false
    else true
  }

  // ===================== _extract_characters_for_entrant =====================

  /** A selection picks a character when its type is missing, empty or `CHARACTER` in any case. */
  predicate IsCharacterSelection(sel: Selection) {
    var selType := Upper(sel.selectionType.GetOr(""));
    selType == "" || selType == "CHARACTER"
  }

  /** The character name a selection contributes for the entrant with key `entrantId`, if any. */
  function SelectionName(sel: Selection, entrantId: Key): Option<string> {
    if !IsCharacterSelection(sel) then None
    else if EntrantOf(sel.entrant).id != entrantId then None
    else
      var name := if sel.character.Some? then sel.character.value.name else None;
      if TextTruthy(name) then name else None
  }

  /** All selections of all games, games first, then selections in order. */
  function AllSelections(games: seq<Game>): seq<Selection>
    decreases |games|
  {
    if games == [] then [] else AllSelections(games[..|games| - 1]) + games[|games| - 1].selections
  }

  /** The names the selections contribute, in order. */
  function NamesOf(sels: seq<Selection>, entrantId: Key): seq<string>
    decreases |sels|
  {
    if sels == [] then []
    else
      var init := NamesOf(sels[..|sels| - 1], entrantId);
      match SelectionName(sels[|sels| - 1], entrantId)
      case Some(name) => init + [name]
      case None => init
  }

  /** The characters the entrant with key `entrantId` picked in the set. */
  function EntrantCharacters(setNode: SetNode, entrantId: Key): seq<string> {
    NamesOf(AllSelections(setNode.games), entrantId)
  }

  /**
   * The names picked are exactly the non-empty character names of the
   * selections that are character selections of that entrant.
   */
  lemma {:induction false} NamesOfExactly(sels: seq<Selection>, entrantId: Key)
    ensures forall c :: c in NamesOf(sels, entrantId) <==>
      exists i | 0 <= i < |sels| :: SelectionName(sels[i], entrantId) == Some(c)
    ensures forall c | c in NamesOf(sels, entrantId) :: c != ""
    ensures |NamesOf(sels, entrantId)| <= |sels|
    decreases |sels|
  {
    if sels != [] {
      var init := sels[..|sels| - 1];
      NamesOfExactly(init, entrantId);
      forall c ensures c in NamesOf(sels, entrantId) <==>
        exists i | 0 <= i < |sels| :: SelectionName(sels[i], entrantId) == Some(c)
      {
        if exists i | 0 <= i < |sels| :: SelectionName(sels[i], entrantId) == Some(c) {
          var i :| 0 <= i < |sels| && SelectionName(sels[i], entrantId) == Some(c);
          if i < |sels| - 1 {
            assert init[i] == sels[i];
          }
        }
        if c in NamesOf(init, entrantId) {
          var i :| 0 <= i < |init| && SelectionName(init[i], entrantId) == Some(c);
          assert sels[i] == init[i];
        }
      }
    }
  }

  lemma NamesOfAppend(sels: seq<Selection>, sel: Selection, entrantId: Key)
    ensures NamesOf(sels + [sel], entrantId) ==
      NamesOf(sels, entrantId) + (match SelectionName(sel, entrantId) case Some(n) => [n] case None => [])
  {
    assert (sels + [sel])[..|sels|] == sels;
  }

  // ===================== build_player_event_results: the maps =====================

  /** What `player_info_by_entrant` holds for one entrant. */
  datatype PlayerInfo = PlayerInfo(player: Player, participant: Participant, entrant: Entrant)

  /** The info an entrant with exactly one participant, whose player has a truthy id, yields. */
  function SingleInfo(entrant: Entrant): Option<PlayerInfo> {
    if |entrant.participants| != 1 then None
    else
      var participant := entrant.participants[0];
      var player := PlayerOf(participant.player);
      if IntTruthy(player.id) then Some(PlayerInfo(player, participant, entrant)) else None
  }

  /** `seeds_map`: each entrant key to its last listed seed number. */
  function SeedsMap(seeds: seq<Seed>): map<Key, Option<int>>
    decreases |seeds|
  {
    if seeds == [] then map[]
    else
      var last := seeds[|seeds| - 1];
      SeedsMap(seeds[..|seeds| - 1])[EntrantOf(last.entrant).id := last.seedNum]
  }

  /** `standings_map`: each entrant key to its last listed placement. */
  function StandingsMap(standings: seq<Standing>): map<Key, Option<int>>
    decreases |standings|
  {
    if standings == [] then map[]
    else
      var last := standings[|standings| - 1];
      StandingsMap(standings[..|standings| - 1])[EntrantOf(last.entrant).id := last.placement]
  }

  /** `m.get(k)` for the seed and standing maps. */
  function MapGet(m: map<Key, Option<int>>, k: Key): Option<int> {
    if k in m then m[k] else None
  }

  /** Every stored entry's player has a truthy id: the passes store no other. */
  ghost predicate IdsTruthy(info: Dict<Key, PlayerInfo>) {
    forall k | k in info.entries :: IntTruthy(info.entries[k].player.id)
  }

  /** Player info after the seeds pass, which stores every single-player entrant it meets. */
  function InfoFromSeeds(seeds: seq<Seed>): (info: Dict<Key, PlayerInfo>)
    ensures info.Valid() && IdsTruthy(info)
    decreases |seeds|
  {
    if seeds == [] then Empty()
    else
      var info := InfoFromSeeds(seeds[..|seeds| - 1]);
      var entrant := EntrantOf(seeds[|seeds| - 1].entrant);
      match SingleInfo(entrant)
      case Some(pi) => info.Put(entrant.id, pi)
      case None => info
  }

  /** Player info after the standings pass, which stores only entrants not stored yet. */
  function InfoFromStandings(info: Dict<Key, PlayerInfo>, standings: seq<Standing>): (r: Dict<Key, PlayerInfo>)
    requires info.Valid()
    ensures r.Valid()
    ensures IdsTruthy(info) ==> IdsTruthy(r)
    decreases |standings|
  {
    if standings == [] then info
    else
      var before := InfoFromStandings(info, standings[..|standings| - 1]);
      var entrant := EntrantOf(standings[|standings| - 1].entrant);
      if entrant.id in before.entries then before
      else
        match SingleInfo(entrant)
        case Some(pi) => before.Put(entrant.id, pi)
        case None => before
  }

  /** Player info after the participants of one slot: the first with a truthy player id is stored, if the key is new. */
  function InfoFromParticipants(info: Dict<Key, PlayerInfo>, entrant: Entrant, ps: seq<Participant>): (r: Dict<Key, PlayerInfo>)
    requires info.Valid()
    ensures r.Valid()
    ensures IdsTruthy(info) ==> IdsTruthy(r)
    decreases |ps|
  {
    if ps == [] then info
    else
      var before := InfoFromParticipants(info, entrant, ps[..|ps| - 1]);
      var participant := ps[|ps| - 1];
      var player := PlayerOf(participant.player);
      if IntTruthy(player.id) && entrant.id !in before.entries then
        before.Put(entrant.id, PlayerInfo(player, participant, entrant))
      else before
  }

  function InfoFromSlots(info: Dict<Key, PlayerInfo>, slots: seq<Slot>): (r: Dict<Key, PlayerInfo>)
    requires info.Valid()
    ensures r.Valid()
    ensures IdsTruthy(info) ==> IdsTruthy(r)
    decreases |slots|
  {
    if slots == [] then info
    else
      var before := InfoFromSlots(info, slots[..|slots| - 1]);
      var entrant := EntrantOf(slots[|slots| - 1].entrant);
      InfoFromParticipants(before, entrant, entrant.participants)
  }

  /** Player info after the sets pass, which reads only sets with at least two slots and never overwrites. */
  function InfoFromSets(info: Dict<Key, PlayerInfo>, sets: seq<SetNode>): (r: Dict<Key, PlayerInfo>)
    requires info.Valid()
    ensures r.Valid()
    ensures IdsTruthy(info) ==> IdsTruthy(r)
    decreases |sets|
  {
    if sets == [] then info
    else
      var before := InfoFromSets(info, sets[..|sets| - 1]);
      var slots := sets[|sets| - 1].slots;
      if |slots| < 2 then before else InfoFromSlots(before, slots)
  }

  // ===================== build_player_event_results: one set's records =====================

  /** What the source keeps of one slot: its entrant key, and the ids and tags of its players with a truthy id. */
  datatype SlotDetail = SlotDetail(entrantId: Key, playerIds: seq<int>, gamerTags: seq<Option<string>>)

  function PlayerIds(ps: seq<Participant>): seq<int>
    decreases |ps|
  {
    if ps == [] then []
    else
      var player := PlayerOf(ps[|ps| - 1].player);
      PlayerIds(ps[..|ps| - 1]) + (if IntTruthy(player.id) then [player.id.value] else [])
  }

  function GamerTags(ps: seq<Participant>): seq<Option<string>>
    decreases |ps|
  {
    if ps == [] then []
    else
      var participant := ps[|ps| - 1];
      var player := PlayerOf(participant.player);
      GamerTags(ps[..|ps| - 1]) +
        (if IntTruthy(player.id) then [TextOr(player.gamerTag, participant.gamerTag)] else [])
  }

  /**
   * The ids are the truthy player ids of the participants, and the tags line
   * up with them one for one: the tag at position `k` comes from the
   * participant whose id is at position `k`.
   */
  lemma {:induction false} PlayerIdsAligned(ps: seq<Participant>)
    ensures |PlayerIds(ps)| == |GamerTags(ps)|
    ensures 0 !in PlayerIds(ps)
    ensures forall id :: id in PlayerIds(ps) <==>
      exists i | 0 <= i < |ps| :: IntTruthy(PlayerOf(ps[i].player).id) && PlayerOf(ps[i].player).id.value == id
    ensures forall k | 0 <= k < |PlayerIds(ps)| :: exists i | 0 <= i < |ps| ::
      && PlayerOf(ps[i].player).id == Some(PlayerIds(ps)[k])
      && GamerTags(ps)[k] == TextOr(PlayerOf(ps[i].player).gamerTag, ps[i].gamerTag)
    decreases |ps|
  {
    if ps != [] {
      var init, last := ps[..|ps| - 1], ps[|ps| - 1];
      PlayerIdsAligned(init);
      forall id ensures id in PlayerIds(ps) <==>
        exists i | 0 <= i < |ps| :: IntTruthy(PlayerOf(ps[i].player).id) && PlayerOf(ps[i].player).id.value == id
      {
        if id in PlayerIds(init) {
          var i :| 0 <= i < |init| && IntTruthy(PlayerOf(init[i].player).id) && PlayerOf(init[i].player).id.value == id;
          assert ps[i] == init[i];
        }
        if exists i | 0 <= i < |ps| :: IntTruthy(PlayerOf(ps[i].player).id) && PlayerOf(ps[i].player).id.value == id {
          var i :| 0 <= i < |ps| && IntTruthy(PlayerOf(ps[i].player).id) && PlayerOf(ps[i].player).id.value == id;
          if i < |init| {
            assert init[i] == ps[i];
          }
        }
      }
      forall k | 0 <= k < |PlayerIds(ps)| ensures exists i | 0 <= i < |ps| ::
        && PlayerOf(ps[i].player).id == Some(PlayerIds(ps)[k])
        && GamerTags(ps)[k] == TextOr(PlayerOf(ps[i].player).gamerTag, ps[i].gamerTag)
      {
        if k < |PlayerIds(init)| {
          var i :| 0 <= i < |init| && PlayerOf(init[i].player).id == Some(PlayerIds(init)[k])
            && GamerTags(init)[k] == TextOr(PlayerOf(init[i].player).gamerTag, init[i].gamerTag);
          assert ps[i] == init[i];
        } else {
          assert PlayerOf(ps[|ps| - 1].player).id == Some(PlayerIds(ps)[k]);
        }
      }
    }
  }

  function DetailOf(slot: Slot): SlotDetail {
    var entrant := EntrantOf(slot.entrant);
    SlotDetail(entrant.id, PlayerIds(entrant.participants), GamerTags(entrant.participants))
  }

  /** One detail per slot, in slot order: its entrant key, and the ids and tags its participants yield. */
  function Details(slots: seq<Slot>): (ds: seq<SlotDetail>)
    ensures |ds| == |slots|
    ensures forall i | 0 <= i < |slots| ::
      var entrant := EntrantOf(slots[i].entrant);
      && ds[i].entrantId == entrant.id
      && ds[i].playerIds == PlayerIds(entrant.participants)
      && ds[i].gamerTags == GamerTags(entrant.participants)
  {
    seq(|slots|, i requires 0 <= i < |slots| => DetailOf(slots[i]))
  }

  /**
   * The opponent of slot `i`: the first other slot that has a player, scanning
   * from slot `from` on.
   */
  function OpponentFrom(details: seq<SlotDetail>, i: nat, from: nat): (o: Option<nat>)
    requires from <= |details|
    ensures o.Some? ==> from <= o.value < |details| && o.value != i && details[o.value].playerIds != []
    ensures o.Some? ==> forall j | from <= j < o.value && j != i :: details[j].playerIds == []
    ensures o.None? ==> forall j | from <= j < |details| && j != i :: details[j].playerIds == []
    decreases |details| - from
  {
    if from == |details| then None
    else if from != i && details[from].playerIds != [] then Some(from)
    else OpponentFrom(details, i, from + 1)
  }

  /** `next(s for s in slot_details if s is not slot and s["player_ids"])` */
  function Opponent(details: seq<SlotDetail>, i: nat): (o: Option<nat>)
    ensures o.Some? ==> o.value < |details| && o.value != i && details[o.value].playerIds != []
    ensures o.Some? ==> forall j | 0 <= j < o.value && j != i :: details[j].playerIds == []
    ensures o.None? <==> forall j | 0 <= j < |details| && j != i :: details[j].playerIds == []
  {
    OpponentFrom(details, i, 0)
  }

  /** `won`: unknown when the set has no winner, else whether the winner is this entrant. */
  function WonFor(setNode: SetNode, entrantId: Key): (won: Option<bool>)
    ensures won.None? <==> setNode.winnerId.None?
    ensures won == Some(true) <==> setNode.winnerId.Some? && setNode.winnerId == entrantId
  {
    var winnerId := setNode.winnerId;
    if winnerId.None? then None else Some(winnerId == entrantId)
  }

  /** `[tag for tag in tags if tag]`: the present, non-empty tags, in order. */
  function TruthyTags(tags: seq<Option<string>>): (ts: seq<string>)
    ensures |ts| <= |tags|
    ensures forall t :: t in ts <==> t != "" && Some(t) in tags
    decreases |tags|
  {
    if tags == [] then []
    else
      var last := tags[|tags| - 1];
      TruthyTags(tags[..|tags| - 1]) + (if TextTruthy(last) then [last.value] else [])
  }

  /** The record slot `i` yields, paired with its player id: only a slot with exactly one player and an opponent yields one. */
  function RecordFor(setNode: SetNode, details: seq<SlotDetail>, i: nat,
                     seeds: map<Key, Option<int>>, standings: map<Key, Option<int>>): (r: Option<(int, SetRecord)>)
    requires i < |details|
    ensures r.Some? ==> |details[i].playerIds| == 1 && r.value.0 == details[i].playerIds[0]
    ensures r.Some? ==> r.value.1.won == WonFor(setNode, details[i].entrantId)
    ensures r.Some? <==> |details[i].playerIds| == 1 && Opponent(details, i).Some?
    ensures r.Some? ==> var j := Opponent(details, i).value; var x := r.value.1;
      && x.setId == setNode.id
      && x.opponentEntrantId == details[j].entrantId
      && x.opponentPlayerIds == details[j].playerIds
      && x.opponentGamerTags == TruthyTags(details[j].gamerTags)
      && x.opponentSeed == MapGet(seeds, details[j].entrantId)
      && x.opponentPlacement == MapGet(standings, details[j].entrantId)
      && x.characters == EntrantCharacters(setNode, details[i].entrantId)
  {
    if |details[i].playerIds| != 1 then None
    else
      match Opponent(details, i)
      case None => None
      case Some(j) =>
        var opponent := details[j];
        Some((details[i].playerIds[0], SetRecord(
          setId := setNode.id,
          won := WonFor(setNode, details[i].entrantId),
          opponentEntrantId := opponent.entrantId,
          opponentPlayerIds := opponent.playerIds,
          opponentGamerTags := TruthyTags(opponent.gamerTags),
          opponentSeed := MapGet(seeds, opponent.entrantId),
          opponentPlacement := MapGet(standings, opponent.entrantId),
          roundText := TextOr(setNode.fullRoundText, setNode.round),
          completedAt := setNode.completedAt,
          characters := EntrantCharacters(setNode, details[i].entrantId))))
  }

  /** The records of the first `n` slots, in slot order. */
  function RecordsFrom(setNode: SetNode, details: seq<SlotDetail>, n: nat,
                       seeds: map<Key, Option<int>>, standings: map<Key, Option<int>>): (rs: seq<(int, SetRecord)>)
    requires n <= |details|
    decreases n
  {
    if n == 0 then []
    else
      RecordsFrom(setNode, details, n - 1, seeds, standings) +
        match RecordFor(setNode, details, n - 1, seeds, standings)
        case Some(x) => [x]
        case None => []
  }

  lemma RecordsFromStep(setNode: SetNode, details: seq<SlotDetail>, j: nat,
                        seeds: map<Key, Option<int>>, standings: map<Key, Option<int>>)
    requires j < |details|
    ensures var r := RecordFor(setNode, details, j, seeds, standings);
      RecordsFrom(setNode, details, j + 1, seeds, standings) ==
        RecordsFrom(setNode, details, j, seeds, standings) + (if r.Some? then [r.value] else [])
  {
  }

  /** The records one set yields: none when it has fewer than two slots. */
  function RecordsOfSet(setNode: SetNode, seeds: map<Key, Option<int>>, standings: map<Key, Option<int>>): seq<(int, SetRecord)> {
    if |setNode.slots| < 2 then []
    else
      var details := Details(setNode.slots);
      RecordsFrom(setNode, details, |details|, seeds, standings)
  }

  function AllRecords(sets: seq<SetNode>, seeds: map<Key, Option<int>>, standings: map<Key, Option<int>>): seq<(int, SetRecord)>
    decreases |sets|
  {
    if sets == [] then []
    else AllRecords(sets[..|sets| - 1], seeds, standings) + RecordsOfSet(sets[|sets| - 1], seeds, standings)
  }

  /** `sets_by_player[pid]` (a `defaultdict(list)`) */
  function SetsOf(byPlayer: map<int, seq<SetRecord>>, playerId: int): seq<SetRecord> {
    if playerId in byPlayer then byPlayer[playerId] else []
  }

  /** `sets_by_player`: the records grouped by player id, each group in emission order. */
  function Group(records: seq<(int, SetRecord)>): map<int, seq<SetRecord>>
    decreases |records|
  {
    if records == [] then map[]
    else
      var before := Group(records[..|records| - 1]);
      var (playerId, record) := records[|records| - 1];
      before[playerId := SetsOf(before, playerId) + [record]]
  }

  lemma GroupStep(records: seq<(int, SetRecord)>, playerId: int, record: SetRecord)
    ensures Group(records + [(playerId, record)]) ==
      Group(records)[playerId := SetsOf(Group(records), playerId) + [record]]
  {
    assert (records + [(playerId, record)])[..|records|] == records;
  }

  // ===================== build_player_event_results: the results =====================

  /** `player.get("gamerTag") or participant.get("gamerTag") or "Unknown"` */
  function GamerTag(player: Player, participant: Participant): (tag: string)
    ensures tag != ""
    ensures TextTruthy(player.gamerTag) ==> tag == player.gamerTag.value
    ensures !TextTruthy(player.gamerTag) && TextTruthy(participant.gamerTag) ==> tag == participant.gamerTag.value
    ensures !TextTruthy(player.gamerTag) && !TextTruthy(participant.gamerTag) ==> tag == "Unknown"
  {
    var tag := TextOr(TextOr(player.gamerTag, participant.gamerTag), Some("Unknown"));
    tag.value
  }

  /** `event.get("_tournament") or {}` */
  function TournamentMeta(event: Event): Tournament {
    event.tournament.GetOr(NoTournament)
  }

  /**
   * The result for one stored entrant: none when its player has no id, or has
   * no sets and the entrant was not seeded; otherwise it carries the player's
   * whole group of records.
   */
  function ResultFor(entrantId: Key, info: PlayerInfo, seeds: map<Key, Option<int>>, standings: map<Key, Option<int>>,
                     byPlayer: map<int, seq<SetRecord>>, event: Event): (r: Option<PlayerEventResult>)
    ensures r.Some? <==> info.player.id.Some? && (SetsOf(byPlayer, info.player.id.value) != [] || entrantId in seeds)
    ensures r.Some? ==> r.value.playerId == info.player.id.value && r.value.sets == SetsOf(byPlayer, r.value.playerId)
    ensures r.Some? ==> r.value.entrantId == entrantId && r.value.gamerTag != ""
    ensures r.Some? ==> r.value.sets != [] || entrantId in seeds
    ensures r.Some? ==> r.value.seedNum == MapGet(seeds, entrantId) && r.value.placement == MapGet(standings, entrantId)
    ensures r.Some? ==> && r.value.gamerTag == GamerTag(info.player, info.participant)
                        && r.value.participant == info.participant
                        && r.value.event == event
                        && r.value.tournament == TournamentMeta(event)
  {
    var player := info.player;
    var participant := info.participant;
    if player.id.None? then None
    else
      var playerId := player.id.value;
      if |SetsOf(byPlayer, playerId)| == 0 && entrantId !in seeds then None
      else
        Some(PlayerEventResult(
          playerId := playerId,
          gamerTag := GamerTag(player, participant),
          entrantId := entrantId,
          seedNum := MapGet(seeds, entrantId),
          placement := MapGet(standings, entrantId),
          participant := participant,
          event := event,
          tournament := TournamentMeta(event),
          sets := SetsOf(byPlayer, playerId)))
  }

  /** The results for the first `n` stored entrants, in storage order. */
  function ResultsFrom(keys: seq<Key>, n: nat, infos: map<Key, PlayerInfo>, seeds: map<Key, Option<int>>,
                       standings: map<Key, Option<int>>, byPlayer: map<int, seq<SetRecord>>, event: Event): (rs: seq<PlayerEventResult>)
    requires n <= |keys|
    requires forall k | k in keys :: k in infos
    decreases n
  {
    if n == 0 then []
    else
      ResultsFrom(keys, n - 1, infos, seeds, standings, byPlayer, event) +
        match ResultFor(keys[n - 1], infos[keys[n - 1]], seeds, standings, byPlayer, event)
        case Some(r) => [r]
        case None => []
  }

  /** The player info after all three passes. */
  function AllInfo(bundle: EventBundle): (info: Dict<Key, PlayerInfo>)
    ensures info.Valid() && IdsTruthy(info)
  {
    InfoFromSets(InfoFromStandings(InfoFromSeeds(bundle.seeds), bundle.standings), bundle.sets)
  }

  /** What `build_player_event_results` returns. */
  function PlayerEventResults(bundle: EventBundle): seq<PlayerEventResult> {
    var seeds := SeedsMap(bundle.seeds);
    var standings := StandingsMap(bundle.standings);
    var info := AllInfo(bundle);
    var byPlayer := Group(AllRecords(bundle.sets, seeds, standings));
    ResultsFrom(info.keys, |info.keys|, info.entries, seeds, standings, byPlayer, bundle.event)
  }

  // ===================== properties of the join =====================

  /** The seed map holds exactly the listed entrants. */
  lemma {:induction false} SeedsMapListed(seeds: seq<Seed>)
    ensures forall k :: k in SeedsMap(seeds) <==> exists i | 0 <= i < |seeds| :: EntrantOf(seeds[i].entrant).id == k
    decreases |seeds|
  {
    if seeds != [] {
      var init := seeds[..|seeds| - 1];
      SeedsMapListed(init);
      forall k ensures k in SeedsMap(seeds) <==> exists i | 0 <= i < |seeds| :: EntrantOf(seeds[i].entrant).id == k {
        if k in SeedsMap(init) {
          var i :| 0 <= i < |init| && EntrantOf(init[i].entrant).id == k;
          assert seeds[i] == init[i];
        }
        if exists i | 0 <= i < |seeds| :: EntrantOf(seeds[i].entrant).id == k {
          var i :| 0 <= i < |seeds| && EntrantOf(seeds[i].entrant).id == k;
          if i < |seeds| - 1 {
            assert init[i] == seeds[i];
          }
        }
      }
    }
  }

  /** Each listed entrant maps to the seed number of its last listing. */
  lemma {:induction false} SeedsMapLastWriteWins(seeds: seq<Seed>)
    ensures forall i | 0 <= i < |seeds| && (forall j | i < j < |seeds| :: EntrantOf(seeds[j].entrant).id != EntrantOf(seeds[i].entrant).id) ::
      EntrantOf(seeds[i].entrant).id in SeedsMap(seeds) && SeedsMap(seeds)[EntrantOf(seeds[i].entrant).id] == seeds[i].seedNum
    decreases |seeds|
  {
    if seeds != [] {
      var init := seeds[..|seeds| - 1];
      SeedsMapLastWriteWins(init);
      forall i | 0 <= i < |seeds| - 1 && (forall j | i < j < |seeds| :: EntrantOf(seeds[j].entrant).id != EntrantOf(seeds[i].entrant).id)
        ensures EntrantOf(seeds[i].entrant).id in SeedsMap(seeds) && SeedsMap(seeds)[EntrantOf(seeds[i].entrant).id] == seeds[i].seedNum
      {
        assert init[i] == seeds[i];
        assert EntrantOf(seeds[|seeds| - 1].entrant).id != EntrantOf(seeds[i].entrant).id;
        forall j | i < j < |init| ensures EntrantOf(init[j].entrant).id != EntrantOf(init[i].entrant).id {
          assert init[j] == seeds[j];
        }
      }
    }
  }

  /** The standing map holds exactly the listed entrants. */
  lemma {:induction false} StandingsMapListed(standings: seq<Standing>)
    ensures forall k :: k in StandingsMap(standings) <==> exists i | 0 <= i < |standings| :: EntrantOf(standings[i].entrant).id == k
    decreases |standings|
  {
    if standings != [] {
      var init := standings[..|standings| - 1];
      StandingsMapListed(init);
      forall k ensures k in StandingsMap(standings) <==> exists i | 0 <= i < |standings| :: EntrantOf(standings[i].entrant).id == k {
        if k in StandingsMap(init) {
          var i :| 0 <= i < |init| && EntrantOf(init[i].entrant).id == k;
          assert standings[i] == init[i];
        }
        if exists i | 0 <= i < |standings| :: EntrantOf(standings[i].entrant).id == k {
          var i :| 0 <= i < |standings| && EntrantOf(standings[i].entrant).id == k;
          if i < |standings| - 1 {
            assert init[i] == standings[i];
          }
        }
      }
    }
  }

  /** Each listed entrant maps to the placement of its last listing. */
  lemma {:induction false} StandingsMapLastWriteWins(standings: seq<Standing>)
    ensures forall i | 0 <= i < |standings| && (forall j | i < j < |standings| :: EntrantOf(standings[j].entrant).id != EntrantOf(standings[i].entrant).id) ::
      EntrantOf(standings[i].entrant).id in StandingsMap(standings) && StandingsMap(standings)[EntrantOf(standings[i].entrant).id] == standings[i].placement
    decreases |standings|
  {
    if standings != [] {
      var init := standings[..|standings| - 1];
      StandingsMapLastWriteWins(init);
      forall i | 0 <= i < |standings| - 1 && (forall j | i < j < |standings| :: EntrantOf(standings[j].entrant).id != EntrantOf(standings[i].entrant).id)
        ensures EntrantOf(standings[i].entrant).id in StandingsMap(standings) && StandingsMap(standings)[EntrantOf(standings[i].entrant).id] == standings[i].placement
      {
        assert init[i] == standings[i];
        assert EntrantOf(standings[|standings| - 1].entrant).id != EntrantOf(standings[i].entrant).id;
        forall j | i < j < |init| ensures EntrantOf(init[j].entrant).id != EntrantOf(init[i].entrant).id {
          assert init[j] == standings[j];
        }
      }
    }
  }

  /**
   * Player info is first-writer-wins across the passes: what the seeds pass
   * stored, and then what the standings pass stored, is what the end result holds.
   */
  lemma FirstWriterWinsAcrossPasses(bundle: EventBundle)
    ensures Extends(AllInfo(bundle), InfoFromSeeds(bundle.seeds))
    ensures Extends(AllInfo(bundle), InfoFromStandings(InfoFromSeeds(bundle.seeds), bundle.standings))
  {
    var afterSeeds := InfoFromSeeds(bundle.seeds);
    var afterStandings := InfoFromStandings(afterSeeds, bundle.standings);
    StandingsExtend(afterSeeds, bundle.standings);
    SetsExtend(afterStandings, bundle.sets);
    ExtendsTransitive(AllInfo(bundle), afterStandings, afterSeeds);
  }

  /** `r` keeps every key of `info` in its place and every value `info` stored. */
  ghost predicate Extends(r: Dict<Key, PlayerInfo>, info: Dict<Key, PlayerInfo>) {
    && |info.keys| <= |r.keys| && r.keys[..|info.keys|] == info.keys
    && forall k | k in info.entries :: k in r.entries && r.entries[k] == info.entries[k]
  }

  lemma ExtendsTransitive(c: Dict<Key, PlayerInfo>, b: Dict<Key, PlayerInfo>, a: Dict<Key, PlayerInfo>)
    requires Extends(c, b) && Extends(b, a)
    ensures Extends(c, a)
  {
    assert c.keys[..|a.keys|] == c.keys[..|b.keys|][..|a.keys|];
  }

  /** Storing a new key extends a dictionary. */
  lemma PutNewExtends(info: Dict<Key, PlayerInfo>, k: Key, v: PlayerInfo)
    requires info.Valid() && k !in info.entries
    ensures Extends(info.Put(k, v), info)
  {
    assert (info.keys + [k])[..|info.keys|] == info.keys;
  }

  lemma ExtendsReflexive(info: Dict<Key, PlayerInfo>)
    ensures Extends(info, info)
  {
  }

  /** The standings pass never overwrites nor reorders. */
  lemma {:induction false} StandingsExtend(info: Dict<Key, PlayerInfo>, standings: seq<Standing>)
    requires info.Valid()
    ensures Extends(InfoFromStandings(info, standings), info)
    decreases |standings|
  {
    if standings == [] {
      ExtendsReflexive(info);
    } else {
      var before := InfoFromStandings(info, standings[..|standings| - 1]);
      StandingsExtend(info, standings[..|standings| - 1]);
      var entrant := EntrantOf(standings[|standings| - 1].entrant);
      if entrant.id !in before.entries && SingleInfo(entrant).Some? {
        PutNewExtends(before, entrant.id, SingleInfo(entrant).value);
        ExtendsTransitive(InfoFromStandings(info, standings), before, info);
      }
    }
  }

  /** The participants of one slot never overwrite nor reorder. */
  lemma {:induction false} ParticipantsExtend(info: Dict<Key, PlayerInfo>, entrant: Entrant, ps: seq<Participant>)
    requires info.Valid()
    ensures Extends(InfoFromParticipants(info, entrant, ps), info)
    decreases |ps|
  {
    if ps == [] {
      ExtendsReflexive(info);
    } else {
      var before := InfoFromParticipants(info, entrant, ps[..|ps| - 1]);
      ParticipantsExtend(info, entrant, ps[..|ps| - 1]);
      var participant := ps[|ps| - 1];
      var player := PlayerOf(participant.player);
      if IntTruthy(player.id) && entrant.id !in before.entries {
        PutNewExtends(before, entrant.id, PlayerInfo(player, participant, entrant));
        ExtendsTransitive(InfoFromParticipants(info, entrant, ps), before, info);
      }
    }
  }

  lemma {:induction false} SlotsExtend(info: Dict<Key, PlayerInfo>, slots: seq<Slot>)
    requires info.Valid()
    ensures Extends(InfoFromSlots(info, slots), info)
    decreases |slots|
  {
    if slots == [] {
      ExtendsReflexive(info);
    } else {
      var before := InfoFromSlots(info, slots[..|slots| - 1]);
      SlotsExtend(info, slots[..|slots| - 1]);
      var entrant := EntrantOf(slots[|slots| - 1].entrant);
      ParticipantsExtend(before, entrant, entrant.participants);
      ExtendsTransitive(InfoFromSlots(info, slots), before, info);
    }
  }

  /** The sets pass never overwrites nor reorders. */
  lemma {:induction false} SetsExtend(info: Dict<Key, PlayerInfo>, sets: seq<SetNode>)
    requires info.Valid()
    ensures Extends(InfoFromSets(info, sets), info)
    decreases |sets|
  {
    if sets == [] {
      ExtendsReflexive(info);
    } else {
      var before := InfoFromSets(info, sets[..|sets| - 1]);
      SetsExtend(info, sets[..|sets| - 1]);
      var slots := sets[|sets| - 1].slots;
      if |slots| >= 2 {
        SlotsExtend(before, slots);
        ExtendsTransitive(InfoFromSets(info, sets), before, info);
      }
    }
  }

  /** Every record of the first `n` slots is the record of one of those slots. */
  lemma {:induction false} RecordsFromOrigin(setNode: SetNode, details: seq<SlotDetail>, n: nat,
                                              seeds: map<Key, Option<int>>, standings: map<Key, Option<int>>)
    requires n <= |details|
    ensures forall x | x in RecordsFrom(setNode, details, n, seeds, standings) ::
      exists i | 0 <= i < n :: RecordFor(setNode, details, i, seeds, standings) == Some(x)
    decreases n
  {
    if n > 0 {
      RecordsFromOrigin(setNode, details, n - 1, seeds, standings);
      RecordsFromStep(setNode, details, n - 1, seeds, standings);
    }
  }

  /**
   * A slot with exactly one player yields a record for that player: `won` is
   * tri-state as the set's winner says, the characters are that entrant's, and
   * the opponent is another slot of the same set that has players.
   */
  ghost predicate FromSingleSlot(setNode: SetNode, x: (int, SetRecord)) {
    exists i | 0 <= i < |setNode.slots| ::
      var d := DetailOf(setNode.slots[i]);
      && d.playerIds == [x.0]
      && x.1.setId == setNode.id
      && x.1.won == WonFor(setNode, d.entrantId)
      && x.1.characters == EntrantCharacters(setNode, d.entrantId)
      && exists j | 0 <= j < |setNode.slots| && j != i ::
           var o := DetailOf(setNode.slots[j]);
           && o.playerIds != []
           && x.1.opponentEntrantId == o.entrantId
           && x.1.opponentPlayerIds == o.playerIds
           && x.1.opponentGamerTags == TruthyTags(o.gamerTags)
  }

  /** The opponent's seed and placement are the seed and standing maps' entries for the opponent's key. */
  ghost predicate UsesMaps(x: (int, SetRecord), seeds: map<Key, Option<int>>, standings: map<Key, Option<int>>) {
    x.1.opponentSeed == MapGet(seeds, x.1.opponentEntrantId) && x.1.opponentPlacement == MapGet(standings, x.1.opponentEntrantId)
  }

  /**
   * A set with fewer than two slots yields nothing; every record a set yields
   * belongs to a slot whose only player is the record's player.
   */
  lemma RecordsOfSetOrigin(setNode: SetNode, seeds: map<Key, Option<int>>, standings: map<Key, Option<int>>)
    ensures |setNode.slots| < 2 ==> RecordsOfSet(setNode, seeds, standings) == []
    ensures forall x | x in RecordsOfSet(setNode, seeds, standings) :: FromSingleSlot(setNode, x) && UsesMaps(x, seeds, standings)
  {
    if |setNode.slots| >= 2 {
      var details := Details(setNode.slots);
      RecordsFromOrigin(setNode, details, |details|, seeds, standings);
      forall x | x in RecordsOfSet(setNode, seeds, standings) ensures FromSingleSlot(setNode, x) && UsesMaps(x, seeds, standings) {
        var i :| 0 <= i < |details| && RecordFor(setNode, details, i, seeds, standings) == Some(x);
        var j := Opponent(details, i).value;
        assert details[i] == DetailOf(setNode.slots[i]);
        assert details[j] == DetailOf(setNode.slots[j]);
        assert |details[i].playerIds| == 1;
        assert details[i].playerIds == [x.0];
      }
    }
  }

  /** Two slots with different entrant keys never both get a record that says `won`. */
  lemma AtMostOneWinnerPerSet(setNode: SetNode, seeds: map<Key, Option<int>>, standings: map<Key, Option<int>>)
    ensures var details := Details(setNode.slots);
      forall i, j | 0 <= i < |details| && 0 <= j < |details| && details[i].entrantId != details[j].entrantId ::
        var ri := RecordFor(setNode, details, i, seeds, standings);
        var rj := RecordFor(setNode, details, j, seeds, standings);
        !(ri.Some? && rj.Some? && ri.value.1.won == Some(true) && rj.value.1.won == Some(true))
  {
  }

  /**
   * Every record of the event comes from one of its sets, from a slot whose only
   * player is the record's player, and reads the opponent's seed and placement
   * from the maps.
   */
  lemma {:induction false} AllRecordsOrigin(sets: seq<SetNode>, seeds: map<Key, Option<int>>, standings: map<Key, Option<int>>)
    ensures forall x | x in AllRecords(sets, seeds, standings) ::
      && (exists n | 0 <= n < |sets| :: |sets[n].slots| >= 2 && FromSingleSlot(sets[n], x))
      && UsesMaps(x, seeds, standings)
    decreases |sets|
  {
    if sets != [] {
      var init, last := sets[..|sets| - 1], sets[|sets| - 1];
      AllRecordsOrigin(init, seeds, standings);
      RecordsOfSetOrigin(last, seeds, standings);
      forall x | x in AllRecords(sets, seeds, standings)
        ensures exists n | 0 <= n < |sets| :: |sets[n].slots| >= 2 && FromSingleSlot(sets[n], x)
        ensures UsesMaps(x, seeds, standings)
      {
        if x in AllRecords(init, seeds, standings) {
          var n :| 0 <= n < |init| && |init[n].slots| >= 2 && FromSingleSlot(init[n], x);
          assert sets[n] == init[n];
        } else {
          assert x in RecordsOfSet(last, seeds, standings);
          assert |last.slots| >= 2;
        }
      }
    }
  }

  /** The records of one player, in emission order: a filter, independent of the grouping. */
  function PlayerRecords(records: seq<(int, SetRecord)>, playerId: int): seq<SetRecord>
    decreases |records|
  {
    if records == [] then []
    else
      var (p, record) := records[|records| - 1];
      PlayerRecords(records[..|records| - 1], playerId) + (if p == playerId then [record] else [])
  }

  /** A player's group holds exactly that player's records, in emission order. */
  lemma {:induction false} GroupMembers(records: seq<(int, SetRecord)>, playerId: int)
    ensures SetsOf(Group(records), playerId) == PlayerRecords(records, playerId)
    ensures forall r | r in SetsOf(Group(records), playerId) :: (playerId, r) in records
    decreases |records|
  {
    if records != [] {
      var init := records[..|records| - 1];
      var (p, record) := records[|records| - 1];
      GroupMembers(init, playerId);
      assert records == init + [(p, record)];
      assert SetsOf(Group(records), playerId) ==
        if p == playerId then SetsOf(Group(init), playerId) + [record] else SetsOf(Group(init), playerId);
    }
  }

  /** The results for the first `n` keys: each is the result of one of those keys, and every key with a result has it there. */
  lemma {:induction false} ResultsFromOrigin(keys: seq<Key>, n: nat, infos: map<Key, PlayerInfo>, seeds: map<Key, Option<int>>,
                                              standings: map<Key, Option<int>>, byPlayer: map<int, seq<SetRecord>>, event: Event)
    requires n <= |keys|
    requires forall k | k in keys :: k in infos
    ensures var rs := ResultsFrom(keys, n, infos, seeds, standings, byPlayer, event);
      && (forall r | r in rs :: r.entrantId in keys[..n] &&
            ResultFor(r.entrantId, infos[r.entrantId], seeds, standings, byPlayer, event) == Some(r))
      && (forall i | 0 <= i < n && ResultFor(keys[i], infos[keys[i]], seeds, standings, byPlayer, event).Some? ::
            ResultFor(keys[i], infos[keys[i]], seeds, standings, byPlayer, event).value in rs)
    decreases n
  {
    if n > 0 {
      ResultsFromOrigin(keys, n - 1, infos, seeds, standings, byPlayer, event);
      ResultsFromStep(keys, n, infos, seeds, standings, byPlayer, event);
      assert keys[..n] == keys[..n - 1] + [keys[n - 1]];
      var before := ResultsFrom(keys, n - 1, infos, seeds, standings, byPlayer, event);
      var rs := ResultsFrom(keys, n, infos, seeds, standings, byPlayer, event);
      forall i | 0 <= i < n - 1 && ResultFor(keys[i], infos[keys[i]], seeds, standings, byPlayer, event).Some?
        ensures ResultFor(keys[i], infos[keys[i]], seeds, standings, byPlayer, event).value in rs
      {
        var r := ResultFor(keys[i], infos[keys[i]], seeds, standings, byPlayer, event).value;
        assert r in before;
        assert rs[..|before|] == before;
      }
    }
  }

  lemma ResultsFromStep(keys: seq<Key>, n: nat, infos: map<Key, PlayerInfo>, seeds: map<Key, Option<int>>,
                        standings: map<Key, Option<int>>, byPlayer: map<int, seq<SetRecord>>, event: Event)
    requires 0 < n <= |keys|
    requires forall k | k in keys :: k in infos
    ensures var last := ResultFor(keys[n - 1], infos[keys[n - 1]], seeds, standings, byPlayer, event);
      ResultsFrom(keys, n, infos, seeds, standings, byPlayer, event) ==
        ResultsFrom(keys, n - 1, infos, seeds, standings, byPlayer, event) + (if last.Some? then [last.value] else [])
  {
  }

  /** Distinct stored keys give results for distinct entrants. */
  lemma {:induction false} ResultsFromDistinct(keys: seq<Key>, n: nat, infos: map<Key, PlayerInfo>, seeds: map<Key, Option<int>>,
                                                standings: map<Key, Option<int>>, byPlayer: map<int, seq<SetRecord>>, event: Event)
    requires n <= |keys|
    requires forall k | k in keys :: k in infos
    requires forall a, b | 0 <= a < b < |keys| :: keys[a] != keys[b]
    ensures var rs := ResultsFrom(keys, n, infos, seeds, standings, byPlayer, event);
      forall a, b | 0 <= a < b < |rs| :: rs[a].entrantId != rs[b].entrantId
    decreases n
  {
    if n > 0 {
      ResultsFromDistinct(keys, n - 1, infos, seeds, standings, byPlayer, event);
      ResultsFromOrigin(keys, n - 1, infos, seeds, standings, byPlayer, event);
      ResultsFromStep(keys, n, infos, seeds, standings, byPlayer, event);
      var before := ResultsFrom(keys, n - 1, infos, seeds, standings, byPlayer, event);
      var last := ResultFor(keys[n - 1], infos[keys[n - 1]], seeds, standings, byPlayer, event);
      assert keys[n - 1] !in keys[..n - 1];
      if last.Some? {
        forall a | 0 <= a < |before| ensures before[a].entrantId != last.value.entrantId {
          assert before[a] in before;
        }
      }
    }
  }

  /**
   * The results of an event: one per stored entrant whose player has records or
   * that was seeded, and no other, no entrant twice; each carries a non-empty
   * gamer tag, the entrant's seed and placement, and all its player's records
   * in emission order, every one of which came from a slot whose only player is
   * that player and reads its opponent's seed and placement from the maps.
   */
  lemma PlayerEventResultsJoin(bundle: EventBundle)
    ensures var rs := PlayerEventResults(bundle);
      var seeds := SeedsMap(bundle.seeds);
      var standings := StandingsMap(bundle.standings);
      var info := AllInfo(bundle);
      var records := AllRecords(bundle.sets, seeds, standings);
      && (forall r | r in rs ::
            && r.entrantId in info.entries
            && r.playerId == info.entries[r.entrantId].player.id.value
            && r.gamerTag != ""
            && (r.sets != [] || r.entrantId in seeds)
            && r.seedNum == MapGet(seeds, r.entrantId)
            && r.placement == MapGet(standings, r.entrantId)
            && r.sets == PlayerRecords(records, r.playerId)
            && (forall x | x in r.sets ::
                  && (exists n | 0 <= n < |bundle.sets| :: |bundle.sets[n].slots| >= 2 && FromSingleSlot(bundle.sets[n], (r.playerId, x)))
                  && UsesMaps((r.playerId, x), seeds, standings)))
      && (forall k | k in info.entries && (PlayerRecords(records, info.entries[k].player.id.value) != [] || k in seeds) ::
            exists r | r in rs :: r.entrantId == k)
      && (forall a, b | 0 <= a < b < |rs| :: rs[a].entrantId != rs[b].entrantId)
  {
    var seeds := SeedsMap(bundle.seeds);
    var standings := StandingsMap(bundle.standings);
    var info := AllInfo(bundle);
    var records := AllRecords(bundle.sets, seeds, standings);
    var byPlayer := Group(records);
    var rs := PlayerEventResults(bundle);
    ResultsFromOrigin(info.keys, |info.keys|, info.entries, seeds, standings, byPlayer, bundle.event);
    ResultsFromDistinct(info.keys, |info.keys|, info.entries, seeds, standings, byPlayer, bundle.event);
    AllRecordsOrigin(bundle.sets, seeds, standings);
    assert info.keys[..|info.keys|] == info.keys;
    forall r | r in rs
      ensures r.entrantId in info.entries
      ensures r.sets == PlayerRecords(records, r.playerId)
      ensures forall x | x in r.sets ::
        && (exists n | 0 <= n < |bundle.sets| :: |bundle.sets[n].slots| >= 2 && FromSingleSlot(bundle.sets[n], (r.playerId, x)))
        && UsesMaps((r.playerId, x), seeds, standings)
    {
      assert r.sets == SetsOf(byPlayer, r.playerId);
      GroupMembers(records, r.playerId);
    }
    forall k | k in info.entries && (PlayerRecords(records, info.entries[k].player.id.value) != [] || k in seeds)
      ensures exists r | r in rs :: r.entrantId == k
    {
      var i :| 0 <= i < |info.keys| && info.keys[i] == k;
      GroupMembers(records, info.entries[k].player.id.value);
      var r := ResultFor(k, info.entries[k], seeds, standings, byPlayer, bundle.event).value;
      assert r in rs;
    }
  }
}

/** `build_player_event_results` and `_extract_characters_for_entrant` as the loops they are, proved to compute the functions of `SmashData`. */
module SmashDataBuild {
  import opened Wrappers
  import opened Dicts
  import opened Payloads
  import opened Text
  import opened SmashData

  /** `_extract_characters_for_entrant`: the loop over the set's games. */
  method ExtractCharactersForEntrant(setNode: SetNode, entrantId: Key) returns (characters: seq<string>)
    ensures characters == EntrantCharacters(setNode, entrantId)
  {
    characters := [];
    var games := setNode.games;
    for g := 0 to |games|
      invariant characters == NamesOf(AllSelections(games[..g]), entrantId)
    {
      assert games[..g + 1][..g] == games[..g];
      characters := AppendGameCharacters(characters, games[g].selections, entrantId, AllSelections(games[..g]));
    }
    assert games[..|games|] == games;
  }

  /** The inner loop of `_extract_characters_for_entrant`, over one game's selections. */
  method AppendGameCharacters(characters0: seq<string>, selections: seq<Selection>, entrantId: Key, ghost done: seq<Selection>)
    returns (characters: seq<string>)
    requires characters0 == NamesOf(done, entrantId)
    ensures characters == NamesOf(done + selections, entrantId)
  {
    characters := characters0;
    assert done + selections[..0] == done;
    for k := 0 to |selections|
      invariant characters == NamesOf(done + selections[..k], entrantId)
    {
      var selection := selections[k];
      ghost var before := done + selections[..k];
      assert done + selections[..k + 1] == before + [selection];
      NamesOfAppend(before, selection, entrantId);
      var selType := Upper(selection.selectionType.GetOr(""));
      if selType != "" && selType != "CHARACTER" {
        continue;
      }
      var entrant := EntrantOf(selection.entrant);
      if entrant.id != entrantId {
        continue;
      }
      var name := if selection.character.Some? then selection.character.value.name else None;
      if TextTruthy(name) {
        characters := characters + [name.value];
      }
    }
    assert selections[..|selections|] == selections;
  }

  /** `build_player_event_results`: the seeds, standings and sets passes, then one result per stored entrant. */
  method BuildPlayerEventResults(bundle: EventBundle) returns (results: seq<PlayerEventResult>)
    ensures results == PlayerEventResults(bundle)
  {
    var seedsMap, info := SeedsPass(bundle.seeds);
    var standingsMap;
    standingsMap, info := StandingsPass(bundle.standings, info);
    var byPlayer;
    byPlayer, info := SetsPass(bundle.sets, seedsMap, standingsMap, info);
    results := CollectResults(info, seedsMap, standingsMap, byPlayer, bundle.event);
  }

  /** The loop over the seeds: `seeds_map`, and player info for single-player entrants (a later seed overwrites). */
  method SeedsPass(seeds: seq<Seed>) returns (seedsMap: map<Key, Option<int>>, info: Dict<Key, PlayerInfo>)
    ensures seedsMap == SeedsMap(seeds)
    ensures info == InfoFromSeeds(seeds)
  {
    seedsMap := map[];
    info := Empty();
    for i := 0 to |seeds|
      invariant seedsMap == SeedsMap(seeds[..i])
      invariant info == InfoFromSeeds(seeds[..i])
    {
      assert seeds[..i + 1][..i] == seeds[..i];
      var seed := seeds[i];
      var entrant := EntrantOf(seed.entrant);
      var entrantId := entrant.id;
      seedsMap := seedsMap[entrantId := seed.seedNum];
      var participants := entrant.participants;
      if |participants| == 1 {
        var participant := participants[0];
        var player := PlayerOf(participant.player);
        if IntTruthy(player.id) {
          info := info.Put(entrantId, PlayerInfo(player, participant, entrant));
        }
      }
    }
    assert seeds[..|seeds|] == seeds;
  }

  /** The loop over the standings: `standings_map`, and player info for entrants not stored yet. */
  method StandingsPass(standings: seq<Standing>, info0: Dict<Key, PlayerInfo>)
    returns (standingsMap: map<Key, Option<int>>, info: Dict<Key, PlayerInfo>)
    requires info0.Valid()
    ensures standingsMap == StandingsMap(standings)
    ensures info == InfoFromStandings(info0, standings)
  {
    standingsMap := map[];
    info := info0;
    for i := 0 to |standings|
      invariant standingsMap == StandingsMap(standings[..i])
      invariant info == InfoFromStandings(info0, standings[..i])
    {
      assert standings[..i + 1][..i] == standings[..i];
      var standing := standings[i];
      var entrant := EntrantOf(standing.entrant);
      var entrantId := entrant.id;
      standingsMap := standingsMap[entrantId := standing.placement];
      if entrantId !in info.entries {
        var participants := entrant.participants;
        if |participants| == 1 {
          var participant := participants[0];
          var player := PlayerOf(participant.player);
          if IntTruthy(player.id) {
            info := info.Put(entrantId, PlayerInfo(player, participant, entrant));
          }
        }
      }
    }
    assert standings[..|standings|] == standings;
  }

  /** The loop over the sets: `sets_by_player`, and player info for entrants not stored yet. */
  method SetsPass(sets: seq<SetNode>, seedsMap: map<Key, Option<int>>, standingsMap: map<Key, Option<int>>,
                  info0: Dict<Key, PlayerInfo>)
    returns (byPlayer: map<int, seq<SetRecord>>, info: Dict<Key, PlayerInfo>)
    requires info0.Valid()
    ensures byPlayer == Group(AllRecords(sets, seedsMap, standingsMap))
    ensures info == InfoFromSets(info0, sets)
  {
    byPlayer := map[];
    info := info0;
    for i := 0 to |sets|
      invariant info.Valid()
      invariant info == InfoFromSets(info0, sets[..i])
      invariant byPlayer == Group(AllRecords(sets[..i], seedsMap, standingsMap))
    {
      assert sets[..i + 1][..i] == sets[..i];
      ghost var emitted := AllRecords(sets[..i], seedsMap, standingsMap);
      assert AllRecords(sets[..i + 1], seedsMap, standingsMap) == emitted + RecordsOfSet(sets[i], seedsMap, standingsMap);
      var setNode := sets[i];
      var slots := setNode.slots;
      if |slots| < 2 {
        assert emitted + RecordsOfSet(setNode, seedsMap, standingsMap) == emitted;
        continue;
      }
      var details;
      details, info := SlotDetails(slots, info);
      byPlayer := AddSetRecords(setNode, details, seedsMap, standingsMap, byPlayer, emitted);
    }
    assert sets[..|sets|] == sets;
  }

  /** The loop over the stored entrants, in storage order: a result for each with sets or a seed. */
  method CollectResults(info: Dict<Key, PlayerInfo>, seedsMap: map<Key, Option<int>>, standingsMap: map<Key, Option<int>>,
                        byPlayer: map<int, seq<SetRecord>>, event: Event) returns (results: seq<PlayerEventResult>)
    requires info.Valid()
    ensures results == ResultsFrom(info.keys, |info.keys|, info.entries, seedsMap, standingsMap, byPlayer, event)
  {
    results := [];
    for n := 0 to |info.keys|
      invariant results == ResultsFrom(info.keys, n, info.entries, seedsMap, standingsMap, byPlayer, event)
    {
      var entrantId := info.keys[n];
      var pi := info.entries[entrantId];
      var player := pi.player;
      var participant := pi.participant;
      ghost var expected := ResultFor(entrantId, pi, seedsMap, standingsMap, byPlayer, event);
      if player.id == None {
        assert expected == None;
        continue;
      }
      var playerId := player.id.value;
      if |SetsOf(byPlayer, playerId)| == 0 && entrantId !in seedsMap {
        assert expected == None;
        continue;
      }
      var result := PlayerEventResult(
        playerId := playerId,
        gamerTag := GamerTag(player, participant),
        entrantId := entrantId,
        seedNum := MapGet(seedsMap, entrantId),
        placement := MapGet(standingsMap, entrantId),
        participant := participant,
        event := event,
        tournament := TournamentMeta(event),
        sets := SetsOf(byPlayer, playerId));
      assert expected == Some(result);
      results := results + [result];
    }
  }

  /** The loop over a set's slots: each slot's details, and the player info the slot stores. */
  method SlotDetails(slots: seq<Slot>, info0: Dict<Key, PlayerInfo>) returns (details: seq<SlotDetail>, info: Dict<Key, PlayerInfo>)
    requires info0.Valid()
    ensures details == Details(slots)
    ensures info == InfoFromSlots(info0, slots)
  {
    details := [];
    info := info0;
    for j := 0 to |slots|
      invariant |details| == j
      invariant forall k | 0 <= k < j :: details[k] == DetailOf(slots[k])
      invariant info == InfoFromSlots(info0, slots[..j])
    {
      assert slots[..j + 1][..j] == slots[..j];
      var entrant := EntrantOf(slots[j].entrant);
      var entrantId := entrant.id;
      var playerIds, gamerTags;
      playerIds, gamerTags, info := ParticipantDetails(entrant, info);
      details := details + [SlotDetail(entrantId, playerIds, gamerTags)];
    }
    assert slots[..|slots|] == slots;
  }

  /** The loop over one slot's participants: the ids and tags of those whose player has a truthy id. */
  method ParticipantDetails(entrant: Entrant, info0: Dict<Key, PlayerInfo>)
    returns (playerIds: seq<int>, gamerTags: seq<Option<string>>, info: Dict<Key, PlayerInfo>)
    requires info0.Valid()
    ensures playerIds == PlayerIds(entrant.participants)
    ensures gamerTags == GamerTags(entrant.participants)
    ensures info == InfoFromParticipants(info0, entrant, entrant.participants)
  {
    var entrantId := entrant.id;
    var participants := entrant.participants;
    playerIds, gamerTags, info := [], [], info0;
    for k := 0 to |participants|
      invariant playerIds == PlayerIds(participants[..k])
      invariant gamerTags == GamerTags(participants[..k])
      invariant info == InfoFromParticipants(info0, entrant, participants[..k])
    {
      assert participants[..k + 1][..k] == participants[..k];
      var participant := participants[k];
      var player := PlayerOf(participant.player);
      var playerId := player.id;
      if IntTruthy(playerId) {
        playerIds := playerIds + [playerId.value];
        gamerTags := gamerTags + [TextOr(player.gamerTag, participant.gamerTag)];
        if entrantId !in info.entries {
          info := info.Put(entrantId, PlayerInfo(player, participant, entrant));
        }
      }
    }
    assert participants[..|participants|] == participants;
  }

  /** The loop over a set's slot details: one record for each slot with exactly one player and an opponent. */
  method AddSetRecords(setNode: SetNode, details: seq<SlotDetail>, seedsMap: map<Key, Option<int>>,
                       standingsMap: map<Key, Option<int>>, byPlayer0: map<int, seq<SetRecord>>,
                       ghost emitted0: seq<(int, SetRecord)>)
    returns (byPlayer: map<int, seq<SetRecord>>)
    requires |setNode.slots| >= 2 && details == Details(setNode.slots)
    requires byPlayer0 == Group(emitted0)
    ensures byPlayer == Group(emitted0 + RecordsOfSet(setNode, seedsMap, standingsMap))
  {
    byPlayer := byPlayer0;
    RecordsFromEnds(setNode, details, seedsMap, standingsMap, emitted0);
    for j := 0 to |details|
      invariant byPlayer == Group(emitted0 + RecordsFrom(setNode, details, j, seedsMap, standingsMap))
    {
      byPlayer := AddSlotRecord(setNode, details, j, seedsMap, standingsMap, byPlayer, emitted0);
    }
  }

  /** Before the first slot nothing is emitted; after the last, the set's records are. */
  lemma RecordsFromEnds(setNode: SetNode, details: seq<SlotDetail>, seeds: map<Key, Option<int>>,
                        standings: map<Key, Option<int>>, emitted0: seq<(int, SetRecord)>)
    requires |setNode.slots| >= 2 && details == Details(setNode.slots)
    ensures emitted0 + RecordsFrom(setNode, details, 0, seeds, standings) == emitted0
    ensures RecordsFrom(setNode, details, |details|, seeds, standings) == RecordsOfSet(setNode, seeds, standings)
  {
    assert emitted0 + [] == emitted0;
  }

  /** One turn of the loop over slot details: slot `j`'s record, if any, joins its player's group. */
  method AddSlotRecord(setNode: SetNode, details: seq<SlotDetail>, j: nat, seedsMap: map<Key, Option<int>>,
                       standingsMap: map<Key, Option<int>>, byPlayer0: map<int, seq<SetRecord>>,
                       ghost emitted0: seq<(int, SetRecord)>)
    returns (byPlayer: map<int, seq<SetRecord>>)
    requires j < |details|
    requires byPlayer0 == Group(emitted0 + RecordsFrom(setNode, details, j, seedsMap, standingsMap))
    ensures byPlayer == Group(emitted0 + RecordsFrom(setNode, details, j + 1, seedsMap, standingsMap))
  {
    var found := SlotRecord(setNode, details, j, seedsMap, standingsMap);
    AddRecordStep(setNode, details, j, seedsMap, standingsMap, emitted0);
    byPlayer := byPlayer0;
    if found.Some? {
      var playerId := found.value.0;
      var record := found.value.1;
      byPlayer := byPlayer[playerId := SetsOf(byPlayer, playerId) + [record]];
    }
  }

  /** How slot `j`'s record, if any, changes the grouping of the records emitted so far. */
  lemma AddRecordStep(setNode: SetNode, details: seq<SlotDetail>, j: nat, seeds: map<Key, Option<int>>,
                      standings: map<Key, Option<int>>, emitted0: seq<(int, SetRecord)>)
    requires j < |details|
    ensures var found := RecordFor(setNode, details, j, seeds, standings);
      var before := Group(emitted0 + RecordsFrom(setNode, details, j, seeds, standings));
      var after := Group(emitted0 + RecordsFrom(setNode, details, j + 1, seeds, standings));
      && (found.None? ==> after == before)
      && (found.Some? ==> after == before[found.value.0 := SetsOf(before, found.value.0) + [found.value.1]])
  {
    RecordsFromStep(setNode, details, j, seeds, standings);
    var found := RecordFor(setNode, details, j, seeds, standings);
    var emitted := emitted0 + RecordsFrom(setNode, details, j, seeds, standings);
    if found.Some? {
      assert emitted0 + RecordsFrom(setNode, details, j + 1, seeds, standings) == emitted + [found.value];
      GroupStep(emitted, found.value.0, found.value.1);
    } else {
      assert emitted0 + RecordsFrom(setNode, details, j + 1, seeds, standings) == emitted;
    }
  }

  /** The body of the loop over slot details: the record slot `j` yields, if any, with its player id. */
  method SlotRecord(setNode: SetNode, details: seq<SlotDetail>, j: nat, seedsMap: map<Key, Option<int>>,
                    standingsMap: map<Key, Option<int>>) returns (found: Option<(int, SetRecord)>)
    requires j < |details|
    ensures found == RecordFor(setNode, details, j, seedsMap, standingsMap)
  {
    var slot := details[j];
    if |slot.playerIds| != 1 {
      return None;
    }
    var entrantId := slot.entrantId;
    var playerId := slot.playerIds[0];
    var opponentIndex := Opponent(details, j);
    if opponentIndex == None {
      return None;
    }
    var opponent := details[opponentIndex.value];
    var opponentEntrantId := opponent.entrantId;
    var opponentSeed := MapGet(seedsMap, opponentEntrantId);
    var opponentPlacement := MapGet(standingsMap, opponentEntrantId);
    var characters := ExtractCharactersForEntrant(setNode, entrantId);
    var won: Option<bool> := None;
    var winnerId := setNode.winnerId;
    if winnerId != None {
      won := Some(winnerId == entrantId);
    }
    var record := SetRecord(
      setId := setNode.id,
      won := won,
      opponentEntrantId := opponentEntrantId,
      opponentPlayerIds := opponent.playerIds,
      opponentGamerTags := TruthyTags(opponent.gamerTags),
      opponentSeed := opponentSeed,
      opponentPlacement := opponentPlacement,
      roundText := TextOr(setNode.fullRoundText, setNode.round),
      completedAt := setNode.completedAt,
      characters := characters);
    found := Some((playerId, record));
  }
}
