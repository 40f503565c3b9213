/**
 * The legacy analytics helpers: a player's win rate over a list of set
 * payloads, the character the player picked most often in them, and the rows
 * a character report keeps once the player records have been fetched.
 */
module SmashAnalysis {
  import opened Wrappers
  import opened Text
  import opened Dicts
  import opened Payloads
  import SmashData

  // ===================== compute_win_rate =====================

  /** The number of sets whose `winnerId` is the player. */
  function Wins(sets: seq<SetNode>, playerId: int): (n: nat)
    ensures n <= |sets|
    decreases |sets|
  {
    if sets == [] then 0
    else Wins(sets[..|sets| - 1], playerId) + (if sets[|sets| - 1].winnerId == Some(playerId) then 1 else 0)
  }

  /** No win exactly when no set names the player as winner; all wins exactly when every set does. */
  lemma {:induction false} WinsExtremes(sets: seq<SetNode>, playerId: int)
    ensures Wins(sets, playerId) == 0 <==> forall i | 0 <= i < |sets| :: sets[i].winnerId != Some(playerId)
    ensures Wins(sets, playerId) == |sets| <==> forall i | 0 <= i < |sets| :: sets[i].winnerId == Some(playerId)
    decreases |sets|
  {
    if sets != [] {
      var init := sets[..|sets| - 1];
      WinsExtremes(init, playerId);
      assert forall i | 0 <= i < |init| :: init[i] == sets[i];
    }
  }

  /** Counting wins over two lists of sets is counting over each. */
  lemma {:induction false} WinsAppend(a: seq<SetNode>, b: seq<SetNode>, playerId: int)
    ensures Wins(a + b, playerId) == Wins(a, playerId) + Wins(b, playerId)
    decreases |b|
  {
    if b == [] {
      assert a + b == a;
    } else {
      WinsAppend(a, b[..|b| - 1], playerId);
      assert (a + b)[..|a + b| - 1] == a + b[..|b| - 1];
      assert (a + b)[|a + b| - 1] == b[|b| - 1];
    }
  }

  /** `compute_win_rate`: 0.0 without sets, else the share of sets won. */
  function WinRate(sets: seq<SetNode>, playerId: int): (rate: real)
    ensures sets == [] ==> rate == 0.0
    ensures 0.0 <= rate <= 1.0
  {
    if sets == [] then 0.0
    else
      var wins, total := Wins(sets, playerId) as real, |sets| as real;
      ShareInUnitRange(wins, total);
      wins / total
  }

  lemma ShareInUnitRange(part: real, whole: real)
    requires 0.0 <= part <= whole && whole > 0.0
    ensures 0.0 <= part / whole <= 1.0
  {
  }

  /** Over a non-empty list, the rate times the number of sets is the number of sets won. */
  lemma WinRateIsShare(sets: seq<SetNode>, playerId: int)
    requires sets != []
    ensures WinRate(sets, playerId) * |sets| as real == Wins(sets, playerId) as real
  {
  }

  /** The rate is 1.0 exactly when every set was won, and 0.0 exactly when none was. */
  lemma WinRateExtremes(sets: seq<SetNode>, playerId: int)
    requires sets != []
    ensures WinRate(sets, playerId) == 1.0 <==> forall i | 0 <= i < |sets| :: sets[i].winnerId == Some(playerId)
    ensures WinRate(sets, playerId) == 0.0 <==> forall i | 0 <= i < |sets| :: sets[i].winnerId != Some(playerId)
  {
    WinRateIsShare(sets, playerId);
    WinsExtremes(sets, playerId);
  }

  // ===================== extract_main_character: the entrants =====================

  /** Some participant of the list is the player. */
  predicate HasPlayer(ps: seq<Participant>, playerId: int) {
    exists p | p in ps :: PlayerOf(p.player).id == Some(playerId)
  }

  /** The ids, when truthy, of the slots' entrants that have the player among their participants. */
  function PlayerEntrantIds(slots: seq<Slot>, playerId: int): set<int>
    decreases |slots|
  {
    if slots == [] then {}
    else
      var e := EntrantOf(slots[|slots| - 1].entrant);
      PlayerEntrantIds(slots[..|slots| - 1], playerId)
        + (if HasPlayer(e.participants, playerId) && IntTruthy(e.id) then {e.id.value} else {})
  }

  /** An id is collected exactly when some slot's entrant has it and has the player. */
  lemma {:induction false} PlayerEntrantIdsMembers(slots: seq<Slot>, playerId: int, x: int)
    ensures x in PlayerEntrantIds(slots, playerId) <==>
      x != 0 && exists i | 0 <= i < |slots| ::
        EntrantOf(slots[i].entrant).id == Some(x) && HasPlayer(EntrantOf(slots[i].entrant).participants, playerId)
    decreases |slots|
  {
    if slots != [] {
      var init := slots[..|slots| - 1];
      PlayerEntrantIdsMembers(init, playerId, x);
      if x in PlayerEntrantIds(init, playerId) {
        var i :| 0 <= i < |init| &&
          EntrantOf(init[i].entrant).id == Some(x) && HasPlayer(EntrantOf(init[i].entrant).participants, playerId);
        assert slots[i] == init[i];
      }
      if x != 0 && exists i | 0 <= i < |slots| ::
          EntrantOf(slots[i].entrant).id == Some(x) && HasPlayer(EntrantOf(slots[i].entrant).participants, playerId) {
        var i :| 0 <= i < |slots| &&
          EntrantOf(slots[i].entrant).id == Some(x) && HasPlayer(EntrantOf(slots[i].entrant).participants, playerId);
        if i < |init| {
          assert init[i] == slots[i];
        }
      }
    }
  }

  // ===================== extract_main_character: the name of one selection =====================

  /** `[str(v)]`, and for a number also `str(int(v))`: the lookup keys tried, in order. */
  function LookupKeys(v: SelectionValue): (keys: seq<string>)
    ensures keys != [] && keys[0] == match v case IntValue(n) => IntText(n) case FloatValue(_, text) => text case TextValue(s) => s
    ensures v.TextValue? <==> |keys| == 1
    ensures |keys| <= 2
    ensures v.IntValue? ==> keys[1] == IntText(v.n)
    ensures v.FloatValue? ==> keys[1] == IntText(Truncate(v.x))
  {
    match v
    case IntValue(n) => [IntText(n), IntText(n)]
    case FloatValue(x, text) => [text, IntText(Truncate(x))]
    case TextValue(s) => [s]
  }

  /** A key whose lookup gives no name (missing, or the empty string). */
  predicate Miss(lookup: map<string, string>, key: string) {
    key !in lookup || lookup[key] == ""
  }

  /** The name of the first key the lookup has a non-empty name for. */
  function FirstHit(lookup: map<string, string>, keys: seq<string>): Option<string>
    decreases |keys|
  {
    if keys == [] then None
    else if !Miss(lookup, keys[0]) then Some(lookup[keys[0]])
    else FirstHit(lookup, keys[1..])
  }

  /** No hit exactly when every key misses; a hit is the name of a key that hits after keys that all miss. */
  lemma {:induction false} FirstHitIsFirstHit(lookup: map<string, string>, keys: seq<string>)
    ensures FirstHit(lookup, keys).None? <==> forall i | 0 <= i < |keys| :: Miss(lookup, keys[i])
    ensures FirstHit(lookup, keys).Some? ==> exists i | 0 <= i < |keys| ::
      !Miss(lookup, keys[i]) && lookup[keys[i]] == FirstHit(lookup, keys).value && forall j | 0 <= j < i :: Miss(lookup, keys[j])
    decreases |keys|
  {
    if keys != [] && Miss(lookup, keys[0]) {
      var rest := keys[1..];
      FirstHitIsFirstHit(lookup, rest);
      assert forall i | 0 <= i < |rest| :: rest[i] == keys[i + 1];
      if FirstHit(lookup, rest).Some? {
        var i :| 0 <= i < |rest| &&
          !Miss(lookup, rest[i]) && lookup[rest[i]] == FirstHit(lookup, rest).value && forall j | 0 <= j < i :: Miss(lookup, rest[j]);
        assert forall j | 0 <= j < i + 1 :: Miss(lookup, keys[j]) by {
          forall j | 0 <= j < i + 1 ensures Miss(lookup, keys[j]) {
            if j > 0 {
              assert keys[j] == rest[j - 1];
            }
          }
        }
      }
    }
  }

  /** The selection's entrant is one of the player's entrants in the set. */
  predicate ByPlayer(sel: Selection, ids: set<int>) {
    var id := EntrantOf(sel.entrant).id;
    id.Some? && id.value in ids
  }

  /** The name a selection counts for the player with the entrants `ids`: its character's name, else a lookup hit. */
  function SelectionName(sel: Selection, ids: set<int>, lookup: map<string, string>): Option<string> {
    if !SmashData.IsCharacterSelection(sel) || !ByPlayer(sel, ids) then None
    else
      var given := if sel.character.Some? then sel.character.value.name else None;
      if TextTruthy(given) then given
      else if lookup != map[] && sel.selectionValue.Some? then FirstHit(lookup, LookupKeys(sel.selectionValue.value))
      else None
  }

  /**
   * A selection counts a non-empty name only when it picks a character for one
   * of the player's entrants; its character's name, when it has one, wins over
   * the lookup.
   */
  lemma SelectionNameFilters(sel: Selection, ids: set<int>, lookup: map<string, string>)
    ensures SelectionName(sel, ids, lookup).Some? ==>
      SelectionName(sel, ids, lookup).value != "" && SmashData.IsCharacterSelection(sel) && ByPlayer(sel, ids)
    ensures SmashData.IsCharacterSelection(sel) && ByPlayer(sel, ids) && sel.character.Some? && TextTruthy(sel.character.value.name) ==>
      SelectionName(sel, ids, lookup) == sel.character.value.name
  {
    if sel.selectionValue.Some? {
      FirstHitIsFirstHit(lookup, LookupKeys(sel.selectionValue.value));
    }
  }

  /** The names the selections count, in order. */
  function SelectionNames(sels: seq<Selection>, ids: set<int>, lookup: map<string, string>): seq<string>
    decreases |sels|
  {
    if sels == [] then []
    else
      var init := SelectionNames(sels[..|sels| - 1], ids, lookup);
      match SelectionName(sels[|sels| - 1], ids, lookup)
      case Some(name) => init + [name]
      case None => init
  }

  lemma {:induction false} SelectionNamesAppend(a: seq<Selection>, b: seq<Selection>, ids: set<int>, lookup: map<string, string>)
    ensures SelectionNames(a + b, ids, lookup) == SelectionNames(a, ids, lookup) + SelectionNames(b, ids, lookup)
    decreases |b|
  {
    if b == [] {
      assert a + b == a;
    } else {
      SelectionNamesAppend(a, b[..|b| - 1], ids, lookup);
      assert (a + b)[..|a + b| - 1] == a + b[..|b| - 1];
      assert (a + b)[|a + b| - 1] == b[|b| - 1];
    }
  }

  /** One selection more adds the name it counts, if any. */
  lemma SelectionNamesNext(sels: seq<Selection>, k: nat, ids: set<int>, lookup: map<string, string>)
    requires k < |sels|
    ensures SelectionNames(sels[..k + 1], ids, lookup) == SelectionNames(sels[..k], ids, lookup) +
      (if SelectionName(sels[k], ids, lookup).Some? then [SelectionName(sels[k], ids, lookup).value] else [])
  {
    assert sels[..k + 1][..k] == sels[..k];
  }

  /** One game more adds the names its selections count. */
  lemma GameNamesNext(games: seq<Game>, g: nat, ids: set<int>, lookup: map<string, string>)
    requires g < |games|
    ensures SelectionNames(SmashData.AllSelections(games[..g + 1]), ids, lookup) ==
      SelectionNames(SmashData.AllSelections(games[..g]), ids, lookup) + SelectionNames(games[g].selections, ids, lookup)
  {
    assert games[..g + 1][..g] == games[..g];
    SelectionNamesAppend(SmashData.AllSelections(games[..g]), games[g].selections, ids, lookup);
  }

  lemma AppendAssoc<T>(a: seq<T>, b: seq<T>, c: seq<T>)
    ensures a + (b + c) == a + b + c
  {
  }

  /** Every name counted is non-empty and comes from a selection of one of the player's entrants. */
  lemma {:induction false} SelectionNamesByPlayer(sels: seq<Selection>, ids: set<int>, lookup: map<string, string>)
    ensures forall name | name in SelectionNames(sels, ids, lookup) ::
      name != "" && exists sel | sel in sels :: SmashData.IsCharacterSelection(sel) && ByPlayer(sel, ids)
    decreases |sels|
  {
    if sels != [] {
      var init := sels[..|sels| - 1];
      SelectionNamesByPlayer(init, ids, lookup);
      SelectionNameFilters(sels[|sels| - 1], ids, lookup);
      forall name | name in SelectionNames(sels, ids, lookup)
        ensures name != "" && exists sel | sel in sels :: SmashData.IsCharacterSelection(sel) && ByPlayer(sel, ids)
      {
        if name in SelectionNames(init, ids, lookup) {
          var sel :| sel in init && SmashData.IsCharacterSelection(sel) && ByPlayer(sel, ids);
          assert sel in sels;
        } else {
          assert sels[|sels| - 1] in sels;
        }
      }
    }
  }

  // ===================== extract_main_character: the count and the pick =====================

  /** The names one set counts: none when the player has no entrant in it. */
  function SetNames(s: SetNode, playerId: int, lookup: map<string, string>): seq<string> {
    var ids := PlayerEntrantIds(s.slots, playerId);
    if ids == {} then [] else SelectionNames(SmashData.AllSelections(s.games), ids, lookup)
  }

  /** The names counted over all the sets, in the order they are counted. */
  function CountedNames(sets: seq<SetNode>, playerId: int, lookup: map<string, string>): seq<string>
    decreases |sets|
  {
    if sets == [] then [] else CountedNames(sets[..|sets| - 1], playerId, lookup) + SetNames(sets[|sets| - 1], playerId, lookup)
  }

  /** `extract_main_character`: the most counted name, the first counted among equals; `None` when nothing was counted. */
  function MainCharacter(sets: seq<SetNode>, playerId: int, lookup: map<string, string>): Option<string> {
    var tally := TallyOf(CountedNames(sets, playerId, lookup));
    if tally.keys == [] then None else Some(FirstMaxKey(tally))
  }

  /**
   * The main character is `None` exactly when nothing was counted; otherwise it
   * was counted, no name was counted more often, and every name counted as often
   * was first counted later.
   */
  lemma MainCharacterIsMostCounted(sets: seq<SetNode>, playerId: int, lookup: map<string, string>)
    ensures var names, main := CountedNames(sets, playerId, lookup), MainCharacter(sets, playerId, lookup);
      && (main.None? <==> names == [])
      && (main.Some? ==>
           && main.value in names
           && (forall x | x in names :: multiset(names)[x] <= multiset(names)[main.value])
           && (forall x | x in names && multiset(names)[x] == multiset(names)[main.value] ::
                 IndexOf(names, main.value) <= IndexOf(names, x)))
  {
    MostFrequentFirstSeen(CountedNames(sets, playerId, lookup));
  }

  /** Sets in which the player has no entrant count nothing. */
  lemma SetWithoutPlayerCountsNothing(s: SetNode, playerId: int, lookup: map<string, string>)
    requires forall i | 0 <= i < |s.slots| :: !HasPlayer(EntrantOf(s.slots[i].entrant).participants, playerId)
    ensures SetNames(s, playerId, lookup) == []
  {
    var ids := PlayerEntrantIds(s.slots, playerId);
    if ids != {} {
      var x := PickOne(ids);
      PlayerEntrantIdsMembers(s.slots, playerId, x);
    }
  }

  /** Some member of a non-empty set. */
  ghost function PickOne<T>(xs: set<T>): (x: T)
    requires xs != {}
    ensures x in xs
  {
    var x :| x in xs; x
  }

  // ===================== extract_main_character: the loops =====================

  /** `extract_main_character`, loop by loop. */
  method ExtractMainCharacter(sets: seq<SetNode>, playerId: int, lookup: map<string, string>) returns (main: Option<string>)
    ensures main == MainCharacter(sets, playerId, lookup)
  {
    var charCounts: Dict<string, nat> := Empty();
    ghost var names: seq<string> := [];
    for i := 0 to |sets|
      invariant names == CountedNames(sets[..i], playerId, lookup)
      invariant charCounts == TallyOf(names)
    {
      var s := sets[i];
      assert sets[..i + 1][..i] == sets[..i];
      var ids := EntrantIdsOfPlayer(s, playerId);
      if ids != {} {
        charCounts, names := CountSet(s, ids, lookup, charCounts, names);
      }
    }
    assert sets[..|sets|] == sets;
    if charCounts.keys == [] {
      main := None;
    } else {
      main := Some(FirstMaxKey(charCounts));
    }
  }

  /** The set of entrant ids of the player in one set, built slot by slot and participant by participant. */
  method EntrantIdsOfPlayer(s: SetNode, playerId: int) returns (ids: set<int>)
    ensures ids == PlayerEntrantIds(s.slots, playerId)
  {
    ids := {};
    for i := 0 to |s.slots|
      invariant ids == PlayerEntrantIds(s.slots[..i], playerId)
    {
      assert s.slots[..i + 1][..i] == s.slots[..i];
      var entrant := EntrantOf(s.slots[i].entrant);
      ids := AddIfPlayer(ids, entrant, playerId);
    }
    assert s.slots[..|s.slots|] == s.slots;
  }

  /** The loop over one entrant's participants: add its id, when truthy, if one of them is the player. */
  method AddIfPlayer(ids0: set<int>, entrant: Entrant, playerId: int) returns (ids: set<int>)
    ensures ids == ids0 + (if HasPlayer(entrant.participants, playerId) && IntTruthy(entrant.id) then {entrant.id.value} else {})
  {
    ids := ids0;
    var ps := entrant.participants;
    for j := 0 to |ps|
      invariant ids == ids0 + (if HasPlayer(ps[..j], playerId) && IntTruthy(entrant.id) then {entrant.id.value} else {})
    {
      assert ps[..j + 1] == ps[..j] + [ps[j]];
      var player := PlayerOf(ps[j].player);
      if player.id == Some(playerId) {
        var entrantId := entrant.id;
        if IntTruthy(entrantId) {
          ids := ids + {entrantId.value};
        }
      }
    }
    assert ps[..|ps|] == ps;
  }

  /** The loops over one set's games and their selections, counting each name found. */
  method CountSet(s: SetNode, ids: set<int>, lookup: map<string, string>,
                  charCounts0: Dict<string, nat>, ghost names0: seq<string>)
    returns (charCounts: Dict<string, nat>, ghost names: seq<string>)
    requires charCounts0 == TallyOf(names0)
    ensures names == names0 + SelectionNames(SmashData.AllSelections(s.games), ids, lookup)
    ensures charCounts == TallyOf(names)
    ensures charCounts == TallyOf(names0 + SelectionNames(SmashData.AllSelections(s.games), ids, lookup))
  {
    charCounts, names := charCounts0, names0;
    for g := 0 to |s.games|
      invariant names == names0 + SelectionNames(SmashData.AllSelections(s.games[..g]), ids, lookup)
      invariant charCounts == TallyOf(names)
    {
      GameNamesNext(s.games, g, ids, lookup);
      ghost var before := names;
      charCounts, names := CountSelections(s.games[g].selections, ids, lookup, charCounts, names);
      AppendAssoc(names0, SelectionNames(SmashData.AllSelections(s.games[..g]), ids, lookup),
                  SelectionNames(s.games[g].selections, ids, lookup));
    }
    assert s.games[..|s.games|] == s.games;
  }

  /** The loop over one game's selections. */
  method CountSelections(sels: seq<Selection>, ids: set<int>, lookup: map<string, string>,
                         charCounts0: Dict<string, nat>, ghost names0: seq<string>)
    returns (charCounts: Dict<string, nat>, ghost names: seq<string>)
    requires charCounts0 == TallyOf(names0)
    ensures names == names0 + SelectionNames(sels, ids, lookup)
    ensures charCounts == TallyOf(names)
    ensures charCounts == TallyOf(names0 + SelectionNames(sels, ids, lookup))
  {
    charCounts, names := charCounts0, names0;
    for k := 0 to |sels|
      invariant names == names0 + SelectionNames(sels[..k], ids, lookup)
      invariant charCounts == TallyOf(names)
    {
      SelectionNamesNext(sels, k, ids, lookup);
      var charName := SelectionCharacter(sels[k], ids, lookup);
      if TextTruthy(charName) {
        TallySnoc(names, charName.value);
        AppendAssoc(names0, SelectionNames(sels[..k], ids, lookup), [charName.value]);
        charCounts := Increment(charCounts, charName.value);
        names := names + [charName.value];
      }
    }
    assert sels[..|sels|] == sels;
  }

  /** The body of the selection loop: the filters, then the name, then the lookup loop. */
  method SelectionCharacter(sel: Selection, ids: set<int>, lookup: map<string, string>) returns (charName: Option<string>)
    ensures (if TextTruthy(charName) then charName else None) == SelectionName(sel, ids, lookup)
  {
    var selectionType := Upper(sel.selectionType.GetOr(""));
    if selectionType != "" && selectionType != "CHARACTER" {
      return None;
    }
    var entrant := EntrantOf(sel.entrant);
    if entrant.id.None? || entrant.id.value !in ids {
      return None;
    }
    charName := if sel.character.Some? then sel.character.value.name else None;
    if !TextTruthy(charName) && lookup != map[] {
      if sel.selectionValue.Some? {
        charName := LookupName(lookup, LookupKeys(sel.selectionValue.value));
      }
    }
  }

  /** `for key in key_candidates: char = character_lookup.get(key); if charName: break` */
  method LookupName(lookup: map<string, string>, keys: seq<string>) returns (charName: Option<string>)
    requires keys != []
    ensures (if TextTruthy(charName) then charName else None) == FirstHit(lookup, keys)
  {
    charName := None;
    var i := 0;
    while i < |keys|
      invariant 0 <= i <= |keys|
      invariant forall j | 0 <= j < i :: Miss(lookup, keys[j])
      invariant i > 0 ==> !TextTruthy(charName)
      decreases |keys| - i
    {
      charName := if keys[i] in lookup then Some(lookup[keys[i]]) else None;
      if TextTruthy(charName) {
        FirstHitIsFirst(lookup, keys, i);
        return;
      }
      i := i + 1;
    }
    FirstHitIsFirstHit(lookup, keys);
  }

  /** The first key that hits decides the lookup. */
  lemma {:induction false} FirstHitIsFirst(lookup: map<string, string>, keys: seq<string>, i: nat)
    requires i < |keys| && !Miss(lookup, keys[i])
    requires forall j | 0 <= j < i :: Miss(lookup, keys[j])
    ensures FirstHit(lookup, keys) == Some(lookup[keys[i]])
    decreases i
  {
    if i > 0 {
      FirstHitIsFirst(lookup, keys[1..], i - 1);
    }
  }

  // ===================== generate_character_report: the rows =====================

  /** One player record as fetched: the player, their sets and the tournament and event it came from. */
  datatype PlayerRecord = PlayerRecord(
    player: Option<Player>,
    sets: seq<SetNode>,
    tournament: Option<Tournament>,
    event: Option<Event>)

  datatype ReportRow = ReportRow(
    player: Option<string>,
    region: Option<string>,
    main: Option<string>,
    winRate: real,
    setsAnalyzed: nat,
    matchesFilter: bool,
    tournament: Option<string>,
    event: Option<string>)

  /** No character asked for, or the main character is the one asked for, ignoring case. */
  predicate MatchesFilter(main: Option<string>, character: Option<string>) {
    character.None? || (main.Some? && Lower(main.value) == Lower(character.value))
  }

  /**
   * Every main matches when no character is asked for; a player with no main
   * matches no named character; and the case of the name asked for is irrelevant.
   */
  lemma MatchesFilterIgnoresCase(main: Option<string>, c: string)
    ensures MatchesFilter(main, None)
    ensures main.None? ==> !MatchesFilter(main, Some(c))
    ensures MatchesFilter(main, Some(c)) <==> MatchesFilter(main, Some(Upper(c)))
  {
    LowerOfUpper(c);
  }

  /** The row of a record whose player has a truthy id. */
  function RowOf(record: PlayerRecord, character: Option<string>, lookup: map<string, string>): ReportRow
    requires IntTruthy(PlayerOf(record.player).id)
  {
    var player := PlayerOf(record.player);
    var playerId := player.id.value;
    var main := MainCharacter(record.sets, playerId, lookup);
    ReportRow(
      player := player.gamerTag,
      region := if player.user.Some? then StateOf(LocationOf(player.user)) else None,
      main := main,
      winRate := WinRate(record.sets, playerId),
      setsAnalyzed := |record.sets|,
      matchesFilter := MatchesFilter(main, character),
      tournament := record.tournament.GetOr(NoTournament).name,
      event := if record.event.Some? then record.event.value.name else None)
  }

  /** A record gives a row when its player has a truthy id and the row matches or unmatched rows are wanted. */
  predicate Kept(record: PlayerRecord, character: Option<string>, includeWithoutCharacter: bool, lookup: map<string, string>) {
    IntTruthy(PlayerOf(record.player).id)
      && (includeWithoutCharacter || MatchesFilter(MainCharacter(record.sets, PlayerOf(record.player).id.value, lookup), character))
  }

  /** The row a record gives, if any. */
  function RecordRow(record: PlayerRecord, character: Option<string>, includeWithoutCharacter: bool,
                     lookup: map<string, string>): Option<ReportRow>
  {
    if Kept(record, character, includeWithoutCharacter, lookup) then Some(RowOf(record, character, lookup)) else None
  }

  /** `RecordRow` with the report's options fixed. */
  function RowMaker(character: Option<string>, includeWithoutCharacter: bool, lookup: map<string, string>)
    : PlayerRecord -> Option<ReportRow>
  {
    record => RecordRow(record, character, includeWithoutCharacter, lookup)
  }

  function RecordRows(records: seq<PlayerRecord>, character: Option<string>, includeWithoutCharacter: bool,
                      lookup: map<string, string>): seq<Option<ReportRow>>
  {
    Map(RowMaker(character, includeWithoutCharacter, lookup), records)
  }

  /** The report's rows, in record order. */
  function ReportRows(records: seq<PlayerRecord>, character: Option<string>, includeWithoutCharacter: bool,
                      lookup: map<string, string>): seq<ReportRow>
  {
    Somes(RecordRows(records, character, includeWithoutCharacter, lookup))
  }

  /**
   * Every row comes from a record that is kept, in the unit range for its win
   * rate; without `include_without_character` every row matches the filter.
   */
  lemma ReportRowsFiltered(records: seq<PlayerRecord>, character: Option<string>,
                           includeWithoutCharacter: bool, lookup: map<string, string>)
    ensures |ReportRows(records, character, includeWithoutCharacter, lookup)| <= |records|
    ensures forall row | row in ReportRows(records, character, includeWithoutCharacter, lookup) ::
      (includeWithoutCharacter || row.matchesFilter) && 0.0 <= row.winRate <= 1.0
  {
    var choices := RecordRows(records, character, includeWithoutCharacter, lookup);
    SomesMembers(choices);
    forall row | row in ReportRows(records, character, includeWithoutCharacter, lookup)
      ensures (includeWithoutCharacter || row.matchesFilter) && 0.0 <= row.winRate <= 1.0
    {
      var i :| 0 <= i < |choices| && choices[i] == Some(row);
      assert RecordRow(records[i], character, includeWithoutCharacter, lookup) == Some(row);
    }
  }

  /** The rows of two lists of records are the rows of each, in order. */
  lemma ReportRowsAppend(a: seq<PlayerRecord>, b: seq<PlayerRecord>, character: Option<string>,
                         includeWithoutCharacter: bool, lookup: map<string, string>)
    ensures ReportRows(a + b, character, includeWithoutCharacter, lookup)
         == ReportRows(a, character, includeWithoutCharacter, lookup) + ReportRows(b, character, includeWithoutCharacter, lookup)
  {
    MapAppend(RowMaker(character, includeWithoutCharacter, lookup), a, b);
    SomesAppend(RecordRows(a, character, includeWithoutCharacter, lookup), RecordRows(b, character, includeWithoutCharacter, lookup));
  }

  /** Each row analyses all of its record's sets, and a record without a truthy player id gives no row. */
  lemma ReportRowsOfOne(record: PlayerRecord, character: Option<string>, includeWithoutCharacter: bool,
                        lookup: map<string, string>)
    ensures ReportRows([record], character, includeWithoutCharacter, lookup)
         == if Kept(record, character, includeWithoutCharacter, lookup) then [RowOf(record, character, lookup)] else []
    ensures !IntTruthy(PlayerOf(record.player).id) ==> ReportRows([record], character, includeWithoutCharacter, lookup) == []
    ensures forall row | row in ReportRows([record], character, includeWithoutCharacter, lookup) ::
      row.setsAnalyzed == |record.sets| && row.main == MainCharacter(record.sets, PlayerOf(record.player).id.value, lookup)
  {
    var choices := RecordRows([record], character, includeWithoutCharacter, lookup);
    assert choices == [RecordRow(record, character, includeWithoutCharacter, lookup)];
    assert choices[..0] == [];
  }

  /** `generate_character_report` once the records are fetched: the loop that appends the rows. */
  method GenerateReportRows(records: seq<PlayerRecord>, character: Option<string>, includeWithoutCharacter: bool,
                            lookup: map<string, string>) returns (rows: seq<ReportRow>)
    ensures rows == ReportRows(records, character, includeWithoutCharacter, lookup)
  {
    rows := [];
    for i := 0 to |records|
      invariant rows == ReportRows(records[..i], character, includeWithoutCharacter, lookup)
    {
      var row := ReportRowFor(records[i], character, includeWithoutCharacter, lookup);
      ReportRowsNext(records, i, character, includeWithoutCharacter, lookup);
      if row.Some? {
        rows := rows + [row.value];
      }
    }
    assert records[..|records|] == records;
  }

  /** One record more adds its row, if it gives one. */
  lemma ReportRowsNext(records: seq<PlayerRecord>, i: nat, character: Option<string>, includeWithoutCharacter: bool,
                       lookup: map<string, string>)
    requires i < |records|
    ensures var row := RecordRow(records[i], character, includeWithoutCharacter, lookup);
      ReportRows(records[..i + 1], character, includeWithoutCharacter, lookup)
      == ReportRows(records[..i], character, includeWithoutCharacter, lookup) + (if row.Some? then [row.value] else [])
  {
    var f := RowMaker(character, includeWithoutCharacter, lookup);
    assert records[..i + 1] == records[..i] + [records[i]];
    MapAppend(f, records[..i], [records[i]]);
    SomesAppend(Map(f, records[..i]), Map(f, [records[i]]));
  }

  /** The body of the record loop: skip a player without a truthy id, then build the row and apply the filter. */
  method ReportRowFor(record: PlayerRecord, character: Option<string>, includeWithoutCharacter: bool,
                      lookup: map<string, string>) returns (row: Option<ReportRow>)
    ensures row == RecordRow(record, character, includeWithoutCharacter, lookup)
  {
    var player := PlayerOf(record.player);
    var playerId := player.id;
    if !IntTruthy(playerId) {
      return None;
    }
    var winRate := WinRate(record.sets, playerId.value);
    var mainChar := ExtractMainCharacter(record.sets, playerId.value, lookup);
    var matchesFilter := character.None? || (mainChar.Some? && Lower(mainChar.value) == Lower(character.value));
    if matchesFilter || includeWithoutCharacter {
      row := Some(ReportRow(
        player := player.gamerTag,
        region := if player.user.Some? then StateOf(LocationOf(player.user)) else None,
        main := mainChar,
        winRate := winRate,
        setsAnalyzed := |record.sets|,
        matchesFilter := matchesFilter,
        tournament := record.tournament.GetOr(NoTournament).name,
        event := if record.event.Some? then record.event.value.name else None));
    } else {
      row := None;
    }
  }
}
