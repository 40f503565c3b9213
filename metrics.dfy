/**
 * `metrics.py`: one aggregate per player, folded from that player's event
 * results, then one output row per player with at least one set of known
 * outcome, sorted by weighted win rate, highest first.
 *
 * Module `Metrics` states what the computation yields, as functions over
 * values, and proves its properties; module `MetricsEngine` is the
 * computation itself, over mutable aggregates, proved to yield the same.
 */
module Metrics {
  import opened Wrappers
  import opened Text
  import opened Dicts
  import opened Payloads
  import opened SmashData

  // ===================== _event_weight =====================

  /**
   * `math.log2` and `math.exp`, which the model does not compute: the
   * weight is proved to be at least its floor whatever they return.
   */
  datatype Transcendentals = Transcendentals(log2: real -> real, exp: real -> real)

  /** What the true functions give at the points the weight's fallbacks rely on. */
  predicate Exact(math: Transcendentals) {
    math.log2(1.0) == 0.0 && math.exp(0.0) == 1.0
  }

  const SecondsPerDay: real := 86400.0
  const RecencyScaleDays: real := 90.0
  const MinEventWeight: real := 0.1

  /** `math.log2(num_entrants + 1) or 1.0`, with a missing or zero entrant count read as 0. */
  function SizeWeight(event: Event, math: Transcendentals): (size: real)
    ensures size != 0.0
  {
    var numEntrants := if IntTruthy(event.numEntrants) then event.numEntrants.value else 0;
    var size := math.log2((numEntrants + 1) as real);
    if size == 0.0 then 1.0 else size
  }

  /** `max(0, (now_ts - start_at) / 86400)`, with a missing or zero start read as now. */
  function RecencyDays(event: Event, nowTs: int): real {
    var startAt := if IntTruthy(event.startAt) then event.startAt.value else nowTs;
    var days := (nowTs - startAt) as real / SecondsPerDay;
    if 0.0 < days then days else 0.0
  }

  /** `_event_weight`: size times exponential recency decay, never below 0.1. */
  function EventWeight(event: Event, nowTs: int, math: Transcendentals): (w: real)
    ensures w >= MinEventWeight
    ensures w >= SizeWeight(event, math) * math.exp(-RecencyDays(event, nowTs) / RecencyScaleDays)
    ensures w == MinEventWeight || w == SizeWeight(event, math) * math.exp(-RecencyDays(event, nowTs) / RecencyScaleDays)
  {
    var product := SizeWeight(event, math) * math.exp(-RecencyDays(event, nowTs) / RecencyScaleDays);
    if MinEventWeight < product then product else MinEventWeight
  }

  /** Recency never counts against an event that starts now or later, or whose start is unknown. */
  lemma RecencyNeverNegative(event: Event, nowTs: int)
    ensures RecencyDays(event, nowTs) >= 0.0
    ensures (!IntTruthy(event.startAt) || event.startAt.value >= nowTs) ==> RecencyDays(event, nowTs) == 0.0
  {
  }

  /** With the true `log2` and `exp`, an event of unknown size and start has weight 1. */
  lemma UnknownEventWeighsOne(event: Event, nowTs: int, math: Transcendentals)
    requires Exact(math)
    requires !IntTruthy(event.numEntrants) && !IntTruthy(event.startAt)
    ensures EventWeight(event, nowTs, math) == 1.0
  {
    assert RecencyDays(event, nowTs) == 0.0;
    assert -RecencyDays(event, nowTs) / RecencyScaleDays == 0.0;
  }

  // ===================== _opponent_strength_value =====================

  /** `1/seed` when the opponent's seed is truthy, else `1/placement` when that is, else nothing. */
  function OpponentStrength(rec: SetRecord): (s: Option<real>)
    ensures s.Some? <==> IntTruthy(rec.opponentSeed) || IntTruthy(rec.opponentPlacement)
    ensures IntTruthy(rec.opponentSeed) ==> s == Some(1.0 / rec.opponentSeed.value as real)
    ensures !IntTruthy(rec.opponentSeed) && IntTruthy(rec.opponentPlacement) ==>
      s == Some(1.0 / rec.opponentPlacement.value as real)
  {
    if IntTruthy(rec.opponentSeed) then Some(1.0 / rec.opponentSeed.value as real)
    else if IntTruthy(rec.opponentPlacement) then Some(1.0 / rec.opponentPlacement.value as real)
    else None
  }

  /** Seeds and placements start at 1, so the strength lies in (0, 1], 1 for the top seed. */
  lemma OpponentStrengthInUnit(rec: SetRecord)
    requires rec.opponentSeed.Some? ==> rec.opponentSeed.value >= 0
    requires rec.opponentPlacement.Some? ==> rec.opponentPlacement.value >= 0
    ensures var s := OpponentStrength(rec); s.Some? ==> 0.0 < s.value <= 1.0
    ensures rec.opponentSeed == Some(1) ==> OpponentStrength(rec) == Some(1.0)
  {
    var s := OpponentStrength(rec);
    if s.Some? {
      var n := if IntTruthy(rec.opponentSeed) then rec.opponentSeed.value else rec.opponentPlacement.value;
      assert s.value == 1.0 / n as real;
      assert n as real >= 1.0;
      InverseInUnit(n as real);
    }
  }

  lemma InverseInUnit(x: real)
    requires x >= 1.0
    ensures 0.0 < 1.0 / x <= 1.0
  {
    assert (1.0 / x) * x == 1.0;
  }

  // ===================== _uses_target_character =====================

  /** Some character of the set equals the target, ignoring case. */
  function UsesTargetCharacter(characters: seq<string>, target: string): (uses: bool)
    ensures uses <==> exists c | c in characters :: Lower(c) == Lower(target)
    decreases |characters|
  {
    if characters == [] then false
    else Lower(characters[0]) == Lower(target) || UsesTargetCharacter(characters[1..], target)
  }

  /** Neither the set's names nor the target's case matters. */
  lemma TargetMatchIgnoresCase(characters: seq<string>, target: string)
    ensures UsesTargetCharacter(characters, Upper(target)) == UsesTargetCharacter(characters, target)
  {
    LowerOfUpper(target);
  }

  // ===================== _location_state and _normalize_state =====================

  /** `_location_state`: the `state` of the result's location. */
  function LocationState(r: PlayerEventResult): Option<string> {
    StateOf(ResultLocation(r))
  }

  /** `_normalize_state`: stripped and upper-cased; nothing for a missing, empty or blank state. */
  function NormalizeState(state: Option<string>): (n: Option<string>)
    ensures n.None? <==> !TextTruthy(state) || Strip(state.value) == ""
    ensures n.Some? ==> n.value == Upper(Strip(state.value))
    ensures n.Some? ==> NormalForm(n.value)
  {
    if !TextTruthy(state) then None
    else
      var stripped := Strip(state.value);
      var s := Upper(stripped);
      if s == "" then None
      else
        StripTrimsBothEnds(state.value);
        UpperHasNoLowerCase(stripped);
        UpperKeepsSpace(stripped[0]);
        UpperKeepsSpace(stripped[|stripped| - 1]);
        Some(s)
  }

  /** Non-empty, no lower-case letter, no white space at either end. */
  predicate NormalForm(s: string) {
    && s != ""
    && (forall i | 0 <= i < |s| :: !('a' <= s[i] <= 'z'))
    && !IsSpace(s[0]) && !IsSpace(s[|s| - 1])
  }

  /** Normalising a normalised state changes nothing. */
  lemma NormalizeStateIdempotent(state: Option<string>)
    ensures NormalizeState(NormalizeState(state)) == NormalizeState(state)
  {
    var n := NormalizeState(state);
    if n.Some? {
      StripOfTrimmed(n.value);
      assert Upper(n.value) == n.value;
    }
  }

  /** The tally key for a truthy tournament state: normalised, or `UNKNOWN` when blank. */
  function StateKey(state: Option<string>): (k: string)
    ensures k != ""
    ensures TextTruthy(state) && Strip(state.value) != "" ==> k == Upper(Strip(state.value))
    ensures !TextTruthy(state) || Strip(state.value) == "" ==> k == "UNKNOWN"
  {
    match NormalizeState(state)
    case Some(k) => k
    case None => "UNKNOWN"
  }

  // ===================== PlayerAggregate =====================

  /** The accumulator's fields, as a value. */
  datatype Aggregate = Aggregate(
    playerId: int,
    gamerTag: string,
    state: Option<string>,
    tournaments: set<string>,
    eventsPlayed: nat,
    setsPlayed: nat,
    wins: nat,
    weightedWins: real,
    weightSum: real,
    seedDeltas: seq<real>,
    opponentStrengths: seq<real>,
    setsVsHigherSeed: nat,
    winsVsHigherSeed: nat,
    characterSets: nat,
    characterWins: nat,
    characterWeightedWins: real,
    characterWeightSum: real,
    latestEventStart: int,
    eventSizes: seq<int>,
    stateCounts: Dict<string, nat>)

  /** A fresh aggregate: the identity and state of the first result seen, every count zero. */
  function NewAggregate(playerId: int, gamerTag: string, state: Option<string>): (a: Aggregate)
    ensures Consistent(a) && a.eventsPlayed == 0 && a.setsPlayed == 0
  {
    Aggregate(playerId, gamerTag, state, {}, 0, 0, 0, 0.0, 0.0, [], [], 0, 0, 0, 0, 0.0, 0.0, 0, [], Empty())
  }

  /** What one result adds before its sets are read. */
  function AddEvent(a: Aggregate, r: PlayerEventResult): Aggregate {
    var startAt := r.event.startAt;
    var numEntrants := r.event.numEntrants;
    a.(
      eventsPlayed := a.eventsPlayed + 1,
      tournaments := if TextTruthy(r.tournament.name) then a.tournaments + {r.tournament.name.value} else a.tournaments,
      seedDeltas := if r.seedNum.Some? && r.placement.Some? then a.seedDeltas + [(r.seedNum.value - r.placement.value) as real]
                    else a.seedDeltas,
      latestEventStart := if IntTruthy(startAt) && startAt.value > a.latestEventStart then startAt.value else a.latestEventStart,
      eventSizes := if IntTruthy(numEntrants) then a.eventSizes + [numEntrants.value] else a.eventSizes,
      stateCounts := if TextTruthy(r.tournament.addrState) then Increment(a.stateCounts, StateKey(r.tournament.addrState))
                     else a.stateCounts)
  }

  /** The opponent was seeded better (lower) than the player: both seeds are known. */
  predicate VsHigherSeed(rec: SetRecord, seedNum: Option<int>) {
    rec.opponentSeed.Some? && seedNum.Some? && rec.opponentSeed.value < seedNum.value
  }

  /** What one set adds: nothing when its outcome is unknown. */
  function AddSet(a: Aggregate, rec: SetRecord, seedNum: Option<int>, weight: real, target: string): Aggregate {
    if rec.won.None? then a
    else
      var won := rec.won.value;
      var strength := OpponentStrength(rec);
      var upset := VsHigherSeed(rec, seedNum);
      var uses := UsesTargetCharacter(rec.characters, target);
      a.(
        setsPlayed := a.setsPlayed + 1,
        wins := if won then a.wins + 1 else a.wins,
        weightedWins := if won then a.weightedWins + weight else a.weightedWins,
        weightSum := a.weightSum + weight,
        opponentStrengths := if strength.Some? then a.opponentStrengths + [strength.value] else a.opponentStrengths,
        setsVsHigherSeed := if upset then a.setsVsHigherSeed + 1 else a.setsVsHigherSeed,
        winsVsHigherSeed := if upset && won then a.winsVsHigherSeed + 1 else a.winsVsHigherSeed,
        characterSets := if uses then a.characterSets + 1 else a.characterSets,
        characterWins := if uses && won then a.characterWins + 1 else a.characterWins,
        characterWeightedWins := if uses && won then a.characterWeightedWins + weight else a.characterWeightedWins,
        characterWeightSum := if uses then a.characterWeightSum + weight else a.characterWeightSum)
  }

  /** The sets of one result, in order. */
  function AddSets(a: Aggregate, sets: seq<SetRecord>, seedNum: Option<int>, weight: real, target: string): Aggregate
    decreases |sets|
  {
    if sets == [] then a
    else AddSet(AddSets(a, sets[..|sets| - 1], seedNum, weight, target), sets[|sets| - 1], seedNum, weight, target)
  }

  /** What one result adds to its player's aggregate. */
  function AddResult(a: Aggregate, r: PlayerEventResult, weight: real, target: string): Aggregate {
    AddSets(AddEvent(a, r), r.sets, r.seedNum, weight, target)
  }

  // ----- the aggregate invariant -----

  /** The counters' relations that every aggregate keeps. */
  ghost predicate Consistent(a: Aggregate) {
    && a.wins <= a.setsPlayed
    && 0.0 <= a.weightedWins <= a.weightSum
    && a.weightSum >= MinEventWeight * a.setsPlayed as real
    && a.characterWins <= a.characterSets <= a.setsPlayed
    && 0.0 <= a.characterWeightedWins <= a.characterWeightSum
    && a.characterWeightSum >= MinEventWeight * a.characterSets as real
    && a.winsVsHigherSeed <= a.setsVsHigherSeed <= a.setsPlayed
    && |a.opponentStrengths| <= a.setsPlayed
    && a.stateCounts.Valid()
    && SumValues(a.stateCounts) <= a.eventsPlayed
    && |a.tournaments| <= a.eventsPlayed
    && |a.seedDeltas| <= a.eventsPlayed
    && |a.eventSizes| <= a.eventsPlayed
  }

  lemma AddEventConsistent(a: Aggregate, r: PlayerEventResult)
    requires Consistent(a)
    ensures Consistent(AddEvent(a, r))
  {
    if TextTruthy(r.tournament.addrState) {
      IncrementSum(a.stateCounts, StateKey(r.tournament.addrState));
    }
  }

  lemma AddSetConsistent(a: Aggregate, rec: SetRecord, seedNum: Option<int>, weight: real, target: string)
    requires Consistent(a) && weight >= MinEventWeight
    ensures Consistent(AddSet(a, rec, seedNum, weight, target))
  {
  }

  lemma {:induction false} AddSetsConsistent(a: Aggregate, sets: seq<SetRecord>, seedNum: Option<int>, weight: real, target: string)
    requires Consistent(a) && weight >= MinEventWeight
    ensures Consistent(AddSets(a, sets, seedNum, weight, target))
    decreases |sets|
  {
    if sets != [] {
      AddSetsConsistent(a, sets[..|sets| - 1], seedNum, weight, target);
      AddSetConsistent(AddSets(a, sets[..|sets| - 1], seedNum, weight, target), sets[|sets| - 1], seedNum, weight, target);
    }
  }

  /** Every result keeps the invariant, whatever it holds, provided its weight is at least the floor. */
  lemma AddResultConsistent(a: Aggregate, r: PlayerEventResult, weight: real, target: string)
    requires Consistent(a) && weight >= MinEventWeight
    ensures Consistent(AddResult(a, r, weight, target))
  {
    AddEventConsistent(a, r);
    AddSetsConsistent(AddEvent(a, r), r.sets, r.seedNum, weight, target);
  }

  // ----- sets of unknown outcome -----

  /** The sets whose outcome is known. */
  function Decided(sets: seq<SetRecord>): (d: seq<SetRecord>)
    ensures forall rec | rec in d :: rec in sets && rec.won.Some?
    ensures forall rec | rec in sets && rec.won.Some? :: rec in d
    decreases |sets|
  {
    if sets == [] then []
    else
      var init := Decided(sets[..|sets| - 1]);
      var last := sets[|sets| - 1];
      assert sets == sets[..|sets| - 1] + [last];
      if last.won.Some? then init + [last] else init
  }

  /** A set whose outcome is unknown changes no counter, list nor sum: only decided sets matter. */
  lemma {:induction false} UndecidedSetsIgnored(a: Aggregate, sets: seq<SetRecord>, seedNum: Option<int>, weight: real, target: string)
    ensures AddSets(a, sets, seedNum, weight, target) == AddSets(a, Decided(sets), seedNum, weight, target)
    decreases |sets|
  {
    if sets != [] {
      var init, last := sets[..|sets| - 1], sets[|sets| - 1];
      UndecidedSetsIgnored(a, init, seedNum, weight, target);
      if last.won.Some? {
        var d := Decided(init) + [last];
        assert d[..|d| - 1] == Decided(init);
      }
    }
  }

  // ----- counting -----

  /** The number of sets of known outcome, and of those won. */
  function DecidedCount(sets: seq<SetRecord>): nat
    decreases |sets|
  {
    if sets == [] then 0
    else DecidedCount(sets[..|sets| - 1]) + (if sets[|sets| - 1].won.Some? then 1 else 0)
  }

  function WonCount(sets: seq<SetRecord>): nat
    decreases |sets|
  {
    if sets == [] then 0
    else WonCount(sets[..|sets| - 1]) + (if sets[|sets| - 1].won == Some(true) then 1 else 0)
  }

  /** The sets of one result add one to `sets_played` per decided set and one to `wins` per won set. */
  lemma {:induction false} AddSetsCounts(a: Aggregate, sets: seq<SetRecord>, seedNum: Option<int>, weight: real, target: string)
    ensures var b := AddSets(a, sets, seedNum, weight, target);
      b.setsPlayed == a.setsPlayed + DecidedCount(sets) && b.wins == a.wins + WonCount(sets)
    decreases |sets|
  {
    if sets != [] {
      AddSetsCounts(a, sets[..|sets| - 1], seedNum, weight, target);
    }
  }

  /** Every decided set adds the event's weight to `weight_sum`, and every won set to `weighted_wins`. */
  lemma {:induction false} AddSetsWeights(a: Aggregate, sets: seq<SetRecord>, seedNum: Option<int>, weight: real, target: string)
    ensures var b := AddSets(a, sets, seedNum, weight, target);
      && b.weightSum == a.weightSum + Times(DecidedCount(sets), weight)
      && b.weightedWins == a.weightedWins + Times(WonCount(sets), weight)
    decreases |sets|
  {
    if sets != [] {
      var init, last := sets[..|sets| - 1], sets[|sets| - 1];
      AddSetsWeights(a, init, seedNum, weight, target);
      AddSetWeight(AddSets(a, init, seedNum, weight, target), last, seedNum, weight, target);
    }
  }

  /** One set adds the weight to `weight_sum` when decided, and to `weighted_wins` when won. */
  lemma AddSetWeight(a: Aggregate, rec: SetRecord, seedNum: Option<int>, weight: real, target: string)
    ensures var b := AddSet(a, rec, seedNum, weight, target);
      && b.weightSum == a.weightSum + (if rec.won.Some? then weight else 0.0)
      && b.weightedWins == a.weightedWins + (if rec.won == Some(true) then weight else 0.0)
  {
  }

  /** The decided sets against an opponent seeded better than the player, and those of them won. */
  function UpsetCount(sets: seq<SetRecord>, seedNum: Option<int>): nat
    decreases |sets|
  {
    if sets == [] then 0
    else
      var last := sets[|sets| - 1];
      UpsetCount(sets[..|sets| - 1], seedNum) + (if last.won.Some? && VsHigherSeed(last, seedNum) then 1 else 0)
  }

  function UpsetWinCount(sets: seq<SetRecord>, seedNum: Option<int>): nat
    decreases |sets|
  {
    if sets == [] then 0
    else
      var last := sets[|sets| - 1];
      UpsetWinCount(sets[..|sets| - 1], seedNum) + (if last.won == Some(true) && VsHigherSeed(last, seedNum) then 1 else 0)
  }

  /**
   * `sets_vs_higher_seed` counts the decided sets whose opponent has a known
   * seed below the player's known seed, and `wins_vs_higher_seed` those won.
   */
  lemma {:induction false} AddSetsUpsets(a: Aggregate, sets: seq<SetRecord>, seedNum: Option<int>, weight: real, target: string)
    ensures var b := AddSets(a, sets, seedNum, weight, target);
      && b.setsVsHigherSeed == a.setsVsHigherSeed + UpsetCount(sets, seedNum)
      && b.winsVsHigherSeed == a.winsVsHigherSeed + UpsetWinCount(sets, seedNum)
      && UpsetWinCount(sets, seedNum) <= UpsetCount(sets, seedNum)
    decreases |sets|
  {
    if sets != [] {
      AddSetsUpsets(a, sets[..|sets| - 1], seedNum, weight, target);
    }
  }

  /** `n` times `w`, as `n` additions. */
  function Times(n: nat, w: real): real
    decreases n
  {
    if n == 0 then 0.0 else Times(n - 1, w) + w
  }

  /** The part of an aggregate that only results, not sets, change. */
  function EventPart(a: Aggregate): (int, string, Option<string>, set<string>, nat, seq<real>, int, seq<int>, Dict<string, nat>) {
    (a.playerId, a.gamerTag, a.state, a.tournaments, a.eventsPlayed, a.seedDeltas, a.latestEventStart, a.eventSizes, a.stateCounts)
  }

  /** Sets never change the player's identity nor the per-event fields. */
  lemma {:induction false} AddSetsKeepEventPart(a: Aggregate, sets: seq<SetRecord>, seedNum: Option<int>, weight: real, target: string)
    ensures EventPart(AddSets(a, sets, seedNum, weight, target)) == EventPart(a)
    decreases |sets|
  {
    if sets != [] {
      AddSetsKeepEventPart(a, sets[..|sets| - 1], seedNum, weight, target);
    }
  }

  // ===================== the fold over results =====================

  /** `aggregates`, in first-seen order of player ids. */
  type Aggregates = Dict<int, Aggregate>

  /** One turn of the loop over results. */
  function FoldStep(aggs: Aggregates, r: PlayerEventResult, target: string, nowTs: int, math: Transcendentals): (next: Aggregates)
    ensures aggs.Valid() ==> next.Valid()
  {
    var a := if r.playerId in aggs.entries then aggs.entries[r.playerId]
             else NewAggregate(r.playerId, r.gamerTag, LocationState(r));
    aggs.Put(r.playerId, AddResult(a, r, EventWeight(r.event, nowTs, math), target))
  }

  /** The aggregates after the first results. */
  function Fold(results: seq<PlayerEventResult>, target: string, nowTs: int, math: Transcendentals): (aggs: Aggregates)
    ensures aggs.Valid()
    decreases |results|
  {
    if results == [] then Empty()
    else FoldStep(Fold(results[..|results| - 1], target, nowTs, math), results[|results| - 1], target, nowTs, math)
  }

  /** The number of results, sets of known outcome, and won sets a player has. */
  function EventsOf(results: seq<PlayerEventResult>, playerId: int): nat
    decreases |results|
  {
    if results == [] then 0
    else EventsOf(results[..|results| - 1], playerId) + (if results[|results| - 1].playerId == playerId then 1 else 0)
  }

  function DecidedOf(results: seq<PlayerEventResult>, playerId: int): nat
    decreases |results|
  {
    if results == [] then 0
    else
      var r := results[|results| - 1];
      DecidedOf(results[..|results| - 1], playerId) + (if r.playerId == playerId then DecidedCount(r.sets) else 0)
  }

  function WonOf(results: seq<PlayerEventResult>, playerId: int): nat
    decreases |results|
  {
    if results == [] then 0
    else
      var r := results[|results| - 1];
      WonOf(results[..|results| - 1], playerId) + (if r.playerId == playerId then WonCount(r.sets) else 0)
  }

  /** There is an aggregate for exactly the players with a result, and it carries that player's id. */
  lemma {:induction false} FoldMembers(results: seq<PlayerEventResult>, target: string, nowTs: int, math: Transcendentals)
    ensures var aggs := Fold(results, target, nowTs, math);
      forall p :: p in aggs.entries <==> EventsOf(results, p) > 0
    ensures var aggs := Fold(results, target, nowTs, math);
      forall p | p in aggs.entries :: aggs.entries[p].playerId == p
    decreases |results|
  {
    if results != [] {
      var init, r := results[..|results| - 1], results[|results| - 1];
      FoldMembers(init, target, nowTs, math);
      var before := Fold(init, target, nowTs, math);
      var a := if r.playerId in before.entries then before.entries[r.playerId]
               else NewAggregate(r.playerId, r.gamerTag, LocationState(r));
      AddSetsKeepEventPart(AddEvent(a, r), r.sets, r.seedNum, EventWeight(r.event, nowTs, math), target);
    }
  }

  /** Every aggregate of the dictionary keeps the invariant. */
  ghost predicate AllConsistent(aggs: Aggregates) {
    forall p | p in aggs.entries :: Consistent(aggs.entries[p])
  }

  /** One turn of the loop keeps every aggregate consistent. */
  lemma FoldStepConsistent(aggs: Aggregates, r: PlayerEventResult, target: string, nowTs: int, math: Transcendentals)
    requires AllConsistent(aggs)
    ensures AllConsistent(FoldStep(aggs, r, target, nowTs, math))
  {
    var w := EventWeight(r.event, nowTs, math);
    var a: Aggregate;
    if r.playerId in aggs.entries {
      a := aggs.entries[r.playerId];
    } else {
      a := NewAggregate(r.playerId, r.gamerTag, LocationState(r));
    }
    AddResultConsistent(a, r, w, target);
    var next := aggs.Put(r.playerId, AddResult(a, r, w, target));
    assert FoldStep(aggs, r, target, nowTs, math) == next;
    forall p | p in next.entries ensures Consistent(next.entries[p]) {
      if p != r.playerId {
        assert next.entries[p] == aggs.entries[p];
      }
    }
  }

  /** Every aggregate the fold builds keeps the invariant. */
  lemma {:induction false} FoldConsistent(results: seq<PlayerEventResult>, target: string, nowTs: int, math: Transcendentals)
    ensures AllConsistent(Fold(results, target, nowTs, math))
    decreases |results|
  {
    if results != [] {
      var init := results[..|results| - 1];
      FoldConsistent(init, target, nowTs, math);
      FoldStepConsistent(Fold(init, target, nowTs, math), results[|results| - 1], target, nowTs, math);
    }
  }

  /** A consistent dictionary has a valid state tally in every aggregate. */
  lemma ConsistentTallies(aggs: Aggregates)
    requires AllConsistent(aggs)
    ensures AllTalliesValid(aggs)
  {
    forall p | p in aggs.entries ensures aggs.entries[p].stateCounts.Valid() {
      assert Consistent(aggs.entries[p]);
    }
  }

  /** Each aggregate counts its player's events, decided sets and won sets. */
  lemma {:induction false} FoldCounts(results: seq<PlayerEventResult>, target: string, nowTs: int, math: Transcendentals)
    ensures var aggs := Fold(results, target, nowTs, math);
      forall p | p in aggs.entries ::
        && aggs.entries[p].eventsPlayed == EventsOf(results, p)
        && aggs.entries[p].setsPlayed == DecidedOf(results, p)
        && aggs.entries[p].wins == WonOf(results, p)
    decreases |results|
  {
    if results != [] {
      var init, r := results[..|results| - 1], results[|results| - 1];
      FoldCounts(init, target, nowTs, math);
      FoldMembers(init, target, nowTs, math);
      var before := Fold(init, target, nowTs, math);
      var a := if r.playerId in before.entries then before.entries[r.playerId]
               else NewAggregate(r.playerId, r.gamerTag, LocationState(r));
      var w := EventWeight(r.event, nowTs, math);
      var updated := AddResult(a, r, w, target);
      AddSetsCounts(AddEvent(a, r), r.sets, r.seedNum, w, target);
      AddSetsKeepEventPart(AddEvent(a, r), r.sets, r.seedNum, w, target);
      assert updated.eventsPlayed == a.eventsPlayed + 1;
      assert updated.setsPlayed == a.setsPlayed + DecidedCount(r.sets);
      assert updated.wins == a.wins + WonCount(r.sets);
      var after := Fold(results, target, nowTs, math);
      assert after == before.Put(r.playerId, updated);
      forall p | p in after.entries
        ensures after.entries[p].eventsPlayed == EventsOf(results, p)
        ensures after.entries[p].setsPlayed == DecidedOf(results, p)
        ensures after.entries[p].wins == WonOf(results, p)
      {
        assert EventsOf(results, p) == EventsOf(init, p) + (if p == r.playerId then 1 else 0);
        assert DecidedOf(results, p) == DecidedOf(init, p) + (if p == r.playerId then DecidedCount(r.sets) else 0);
        assert WonOf(results, p) == WonOf(init, p) + (if p == r.playerId then WonCount(r.sets) else 0);
        if p != r.playerId {
          assert after.entries[p] == before.entries[p];
        } else if p !in before.entries {
          assert EventsOf(init, p) == 0;
          EventsZeroNoSets(init, p);
        }
      }
    }
  }

  /** A player with no result has no decided or won set. */
  lemma {:induction false} EventsZeroNoSets(results: seq<PlayerEventResult>, playerId: int)
    requires EventsOf(results, playerId) == 0
    ensures DecidedOf(results, playerId) == 0 && WonOf(results, playerId) == 0
    decreases |results|
  {
    if results != [] {
      EventsZeroNoSets(results[..|results| - 1], playerId);
    }
  }

  // ===================== the rows =====================

  /** One output row (a data-frame row). */
  datatype Row = Row(
    playerId: int,
    gamerTag: string,
    state: Option<string>,
    eventsPlayed: nat,
    setsPlayed: nat,
    winRate: Option<real>,
    weightedWinRate: Option<real>,
    avgSeedDelta: Option<real>,
    opponentStrength: Option<real>,
    characterSets: nat,
    characterWinRate: Option<real>,
    characterWeightedWinRate: Option<real>,
    characterUsageRate: real,
    upsetRate: Option<real>,
    activityScore: real,
    tournamentsPlayed: nat,
    latestEventStart: int,
    avgEventEntrants: Option<real>,
    maxEventEntrants: Option<int>,
    eventsWithKnownState: nat,
    inferredState: Option<string>,
    inferredStateConfidence: Option<real>,
    homeState: Option<string>,
    homeStateInferred: bool,
    homeStateConfidence: Option<real>)

  /** `num / den if den else None` */
  function Ratio(num: real, den: real): (r: Option<real>)
    ensures r.Some? <==> den != 0.0
    ensures r.Some? ==> r.value * den == num
  {
    if den != 0.0 then Some(num / den) else None
  }

  function Sum(xs: seq<real>): real
    decreases |xs|
  {
    if xs == [] then 0.0 else Sum(xs[..|xs| - 1]) + xs[|xs| - 1]
  }

  /** `mean(xs) if xs else None` */
  function Mean(xs: seq<real>): (m: Option<real>)
    ensures m.Some? <==> xs != []
    ensures m.Some? ==> m.value * |xs| as real == Sum(xs)
  {
    if xs == [] then None else Some(Sum(xs) / |xs| as real)
  }

  function AsReals(xs: seq<int>): (ys: seq<real>)
    ensures |ys| == |xs|
  {
    seq(|xs|, i requires 0 <= i < |xs| => xs[i] as real)
  }

  /** `max(xs) if xs else None` */
  function Max(xs: seq<int>): (m: Option<int>)
    ensures m.Some? <==> xs != []
    ensures m.Some? ==> m.value in xs && forall x | x in xs :: x <= m.value
    decreases |xs|
  {
    if xs == [] then None
    else
      assert xs == xs[..|xs| - 1] + [xs[|xs| - 1]];
      match Max(xs[..|xs| - 1])
      case None => Some(xs[|xs| - 1])
      case Some(m) => Some(if xs[|xs| - 1] > m then xs[|xs| - 1] else m)
  }

  /** The share above which the most frequent tournament state is taken for the player's. */
  const InferenceThreshold: real := 0.5

  /**
   * The inferred state and its confidence: the most frequent state, the
   * first counted among equals, when it is not `UNKNOWN` and holds more than
   * half of the counted events.
   */
  function InferState(counts: Dict<string, nat>): (inferred: (Option<string>, Option<real>))
    requires counts.Valid()
    ensures inferred.0.Some? <==> inferred.1.Some?
  {
    var total := SumValues(counts);
    if total == 0 then (None, None)
    else
      assert counts.keys != [];
      var top := FirstMaxKey(counts);
      if top == "UNKNOWN" then (None, None)
      else
        var confidence := counts.entries[top] as real / total as real;
        if confidence > InferenceThreshold then (Some(top), Some(confidence)) else (None, None)
  }

  /** Turn one aggregate into its row. */
  function Finalize(a: Aggregate, assumeTargetMain: bool): Row
    requires a.stateCounts.Valid()
  {
    var winRate := Ratio(a.wins as real, a.setsPlayed as real);
    var weightedWinRate := Ratio(a.weightedWins, a.weightSum);
    var inferred := InferState(a.stateCounts);
    var explicitState := NormalizeState(a.state);
    var homeStateInferred := explicitState.None? && inferred.0.Some?;
    var mainAssumed := assumeTargetMain && a.characterSets == 0 && a.setsPlayed > 0;
    Row(
      playerId := a.playerId,
      gamerTag := a.gamerTag,
      state := explicitState,
      eventsPlayed := a.eventsPlayed,
      setsPlayed := a.setsPlayed,
      winRate := winRate,
      weightedWinRate := weightedWinRate,
      avgSeedDelta := Mean(a.seedDeltas),
      opponentStrength := Mean(a.opponentStrengths),
      characterSets := if mainAssumed then a.setsPlayed else a.characterSets,
      characterWinRate := if mainAssumed then winRate else Ratio(a.characterWins as real, a.characterSets as real),
      characterWeightedWinRate := if mainAssumed then weightedWinRate else Ratio(a.characterWeightedWins, a.characterWeightSum),
      characterUsageRate := if mainAssumed then 1.0
                            else if a.setsPlayed != 0 then a.characterSets as real / a.setsPlayed as real else 0.0,
      upsetRate := Ratio(a.winsVsHigherSeed as real, a.setsVsHigherSeed as real),
      activityScore := a.eventsPlayed as real + 0.1 * a.setsPlayed as real,
      tournamentsPlayed := |a.tournaments|,
      latestEventStart := a.latestEventStart,
      avgEventEntrants := Mean(AsReals(a.eventSizes)),
      maxEventEntrants := Max(a.eventSizes),
      eventsWithKnownState := SumValues(a.stateCounts),
      inferredState := inferred.0,
      inferredStateConfidence := inferred.1,
      homeState := if explicitState.Some? then explicitState else inferred.0,
      homeStateInferred := homeStateInferred,
      homeStateConfidence := if homeStateInferred then inferred.1 else if explicitState.Some? then Some(1.0) else None)
  }

  /** Every aggregate with a stored state tally. */
  ghost predicate AllTalliesValid(aggs: Aggregates) {
    forall p | p in aggs.entries :: aggs.entries[p].stateCounts.Valid()
  }

  /** The aggregates among the first `n`, in dictionary order, that have a decided set. */
  function WithDecidedSets(aggs: Aggregates, n: nat): seq<Aggregate>
    requires aggs.Valid() && n <= |aggs.keys|
    decreases n
  {
    if n == 0 then []
    else
      var p := aggs.keys[n - 1];
      assert p in aggs.entries;
      var a := aggs.entries[p];
      WithDecidedSets(aggs, n - 1) + (if a.setsPlayed == 0 then [] else [a])
  }

  /** `[finalize(a) for a in ds]` */
  function FinalizeAll(ds: seq<Aggregate>, assumeTargetMain: bool): (rows: seq<Row>)
    requires forall a | a in ds :: a.stateCounts.Valid()
    ensures |rows| == |ds|
    decreases |ds|
  {
    if ds == [] then []
    else FinalizeAll(ds[..|ds| - 1], assumeTargetMain) + [Finalize(ds[|ds| - 1], assumeTargetMain)]
  }

  /** The rows of the first `n` aggregates, in dictionary order, skipping players with no decided set. */
  function RowsFrom(aggs: Aggregates, n: nat, assumeTargetMain: bool): seq<Row>
    requires aggs.Valid() && AllTalliesValid(aggs) && n <= |aggs.keys|
  {
    DecidedTallies(aggs, n);
    FinalizeAll(WithDecidedSets(aggs, n), assumeTargetMain)
  }

  /** The aggregates picked have a decided set and a stored state tally. */
  lemma {:induction false} DecidedTallies(aggs: Aggregates, n: nat)
    requires aggs.Valid() && AllTalliesValid(aggs) && n <= |aggs.keys|
    ensures forall a | a in WithDecidedSets(aggs, n) :: a.stateCounts.Valid() && a.setsPlayed > 0
    decreases n
  {
    if n > 0 {
      DecidedTallies(aggs, n - 1);
    }
  }

  /** The same rows read off the aggregates' values in order, as the loop over `aggregates.values()` builds them. */
  function RowsOf(vs: seq<Aggregate>, assumeTargetMain: bool): seq<Row>
    requires forall i | 0 <= i < |vs| :: vs[i].stateCounts.Valid()
  {
    if vs == [] then []
    else
      var a := vs[|vs| - 1];
      RowsOf(vs[..|vs| - 1], assumeTargetMain) + (if a.setsPlayed == 0 then [] else [Finalize(a, assumeTargetMain)])
  }

  /** The values with a decided set, in order. */
  function DecidedAmong(vs: seq<Aggregate>): seq<Aggregate>
  {
    if vs == [] then []
    else
      var a := vs[|vs| - 1];
      DecidedAmong(vs[..|vs| - 1]) + (if a.setsPlayed == 0 then [] else [a])
  }

  /** Picking by key and picking among the values in key order agree. */
  lemma {:induction false} DecidedValues(aggs: Aggregates, vs: seq<Aggregate>, n: nat)
    requires aggs.Valid() && n <= |aggs.keys| == |vs|
    requires forall i | 0 <= i < |vs| :: aggs.keys[i] in aggs.entries && vs[i] == aggs.entries[aggs.keys[i]]
    ensures WithDecidedSets(aggs, n) == DecidedAmong(vs[..n])
    decreases n
  {
    if n > 0 {
      DecidedValues(aggs, vs, n - 1);
      assert vs[..n][..n - 1] == vs[..n - 1];
    }
  }

  /** Filtering then finalizing is the loop that finalizes as it filters. */
  lemma {:induction false} RowsOfDecided(vs: seq<Aggregate>, assumeTargetMain: bool)
    requires forall i | 0 <= i < |vs| :: vs[i].stateCounts.Valid()
    ensures forall a | a in DecidedAmong(vs) :: a.stateCounts.Valid()
    ensures RowsOf(vs, assumeTargetMain) == FinalizeAll(DecidedAmong(vs), assumeTargetMain)
    decreases |vs|
  {
    if vs != [] {
      var a := vs[|vs| - 1];
      var front := vs[..|vs| - 1];
      RowsOfDecided(front, assumeTargetMain);
      if a.setsPlayed != 0 {
        assert DecidedAmong(vs) == DecidedAmong(front) + [a];
        assert RowsOf(vs, assumeTargetMain) == RowsOf(front, assumeTargetMain) + [Finalize(a, assumeTargetMain)];
        FinalizeAllAppend(DecidedAmong(front), a, assumeTargetMain);
      } else {
        assert DecidedAmong(vs) == DecidedAmong(front);
        assert RowsOf(vs, assumeTargetMain) == RowsOf(front, assumeTargetMain);
      }
    }
  }

  /** Reading the rows off the values agrees with `RowsFrom`. */
  lemma RowsOfValues(aggs: Aggregates, assumeTargetMain: bool)
    requires aggs.Valid() && AllTalliesValid(aggs)
    ensures forall i | 0 <= i < |aggs.keys| :: aggs.Values()[i].stateCounts.Valid()
    ensures RowsOf(aggs.Values(), assumeTargetMain) == RowsFrom(aggs, |aggs.keys|, assumeTargetMain)
  {
    var vs := aggs.Values();
    DecidedValues(aggs, vs, |aggs.keys|);
    assert vs[..|aggs.keys|] == vs;
    RowsOfDecided(vs, assumeTargetMain);
  }

  // ===================== the sort =====================

  /** `a` may come before `b` when sorting by weighted win rate, highest first, missing rates last. */
  predicate RanksFirst(a: Row, b: Row) {
    b.weightedWinRate.None? || (a.weightedWinRate.Some? && a.weightedWinRate.value >= b.weightedWinRate.value)
  }

  predicate SortedByRate(rows: seq<Row>) {
    forall i, j | 0 <= i < j < |rows| :: RanksFirst(rows[i], rows[j])
  }

  /** Insert `row` after the leading rows that rank at least as high. */
  function Insert(sorted: seq<Row>, row: Row): seq<Row>
    decreases |sorted|
  {
    if sorted == [] then [row]
    else if RanksFirst(sorted[0], row) then [sorted[0]] + Insert(sorted[1..], row)
    else [row] + sorted
  }

  lemma {:induction false} InsertPermutes(sorted: seq<Row>, row: Row)
    ensures multiset(Insert(sorted, row)) == multiset(sorted) + multiset{row}
    decreases |sorted|
  {
    if sorted != [] && RanksFirst(sorted[0], row) {
      InsertPermutes(sorted[1..], row);
      assert sorted == [sorted[0]] + sorted[1..];
    }
  }

  lemma {:induction false} InsertSorted(sorted: seq<Row>, row: Row)
    requires SortedByRate(sorted)
    ensures SortedByRate(Insert(sorted, row))
    decreases |sorted|
  {
    if sorted != [] && RanksFirst(sorted[0], row) {
      var rest := Insert(sorted[1..], row);
      InsertSorted(sorted[1..], row);
      InsertPermutes(sorted[1..], row);
      forall x | x in rest ensures RanksFirst(sorted[0], x) {
        assert x in multiset(rest);
        if x != row {
          assert x in sorted[1..];
        }
      }
    } else if sorted != [] {
      RanksAfterLowerRate(sorted, row);
    }
  }

  /** A row that `sorted[0]` does not rank before ranks before every row of `sorted`. */
  lemma RanksAfterLowerRate(sorted: seq<Row>, row: Row)
    requires SortedByRate(sorted) && sorted != [] && !RanksFirst(sorted[0], row)
    ensures forall x | x in sorted :: RanksFirst(row, x)
  {
    forall x | x in sorted ensures RanksFirst(row, x) {
      var i :| 0 <= i < |sorted| && sorted[i] == x;
      if i > 0 {
        assert RanksFirst(sorted[0], sorted[i]);
      }
    }
  }

  /**
   * `df.sort_values("weighted_win_rate", ascending=False)`, modelled by an
   * insertion sort; only "sorted and a permutation" is claimed of it.
   */
  function SortRows(rows: seq<Row>): seq<Row>
    decreases |rows|
  {
    if rows == [] then [] else Insert(SortRows(rows[..|rows| - 1]), rows[|rows| - 1])
  }

  /** The sorted rows are a reordering of the rows, highest weighted win rate first, missing rates last. */
  lemma SortRowsSortsAndPermutes(rows: seq<Row>)
    ensures multiset(SortRows(rows)) == multiset(rows)
    ensures SortedByRate(SortRows(rows))
  {
    SortRowsPermutes(rows);
    SortRowsSorts(rows);
  }

  lemma {:induction false} SortRowsPermutes(rows: seq<Row>)
    ensures multiset(SortRows(rows)) == multiset(rows)
    decreases |rows|
  {
    if rows != [] {
      var init, last := rows[..|rows| - 1], rows[|rows| - 1];
      SortRowsPermutes(init);
      InsertPermutes(SortRows(init), last);
      MultisetOfSnoc(rows);
    }
  }

  lemma MultisetOfSnoc<T>(s: seq<T>)
    requires s != []
    ensures multiset(s) == multiset(s[..|s| - 1]) + multiset{s[|s| - 1]}
  {
    assert s == s[..|s| - 1] + [s[|s| - 1]];
  }

  lemma {:induction false} SortRowsSorts(rows: seq<Row>)
    ensures SortedByRate(SortRows(rows))
    decreases |rows|
  {
    if rows != [] {
      SortRowsSorts(rows[..|rows| - 1]);
      InsertSorted(SortRows(rows[..|rows| - 1]), rows[|rows| - 1]);
    }
  }

  // ===================== what a row states =====================

  predicate InUnit(x: real) {
    0.0 <= x <= 1.0
  }

  /** A rate that is either undefined or in [0, 1]. */
  predicate UnitOrNone(x: Option<real>) {
    x.Some? ==> InUnit(x.value)
  }

  /** The bounds of an emitted row: both win rates defined, every rate in [0, 1]. */
  predicate RowBounded(row: Row) {
    && row.winRate.Some? && InUnit(row.winRate.value)
    && row.weightedWinRate.Some? && InUnit(row.weightedWinRate.value)
    && UnitOrNone(row.characterWinRate)
    && UnitOrNone(row.characterWeightedWinRate)
    && InUnit(row.characterUsageRate)
    && UnitOrNone(row.upsetRate)
    && row.characterSets <= row.setsPlayed
  }

  /** A part over a positive whole is a fraction in [0, 1]. */
  lemma FractionInUnit(part: real, whole: real)
    requires 0.0 <= part <= whole && whole > 0.0
    ensures InUnit(part / whole)
  {
    assert (part / whole) * whole == part;
  }

  /** Every guarded ratio of a part to its whole is undefined or in [0, 1]. */
  lemma RatioInUnit(part: real, whole: real)
    requires 0.0 <= part <= whole
    ensures UnitOrNone(Ratio(part, whole))
  {
    if whole != 0.0 {
      FractionInUnit(part, whole);
    }
  }

  /**
   * The row of a consistent aggregate with a decided set has both win rates
   * defined (the weight sum is at least 0.1 per set) and every rate in [0, 1].
   */
  lemma FinalizeBounded(a: Aggregate, assumeTargetMain: bool)
    requires Consistent(a) && a.setsPlayed > 0
    ensures RowBounded(Finalize(a, assumeTargetMain))
  {
    assert a.weightSum >= MinEventWeight * a.setsPlayed as real >= MinEventWeight;
    RatioInUnit(a.wins as real, a.setsPlayed as real);
    RatioInUnit(a.weightedWins, a.weightSum);
    RatioInUnit(a.characterWins as real, a.characterSets as real);
    RatioInUnit(a.characterWeightedWins, a.characterWeightSum);
    RatioInUnit(a.characterSets as real, a.setsPlayed as real);
    RatioInUnit(a.winsVsHigherSeed as real, a.setsVsHigherSeed as real);
  }

  /**
   * Without the assumed main, the character fields are the target's own:
   * the usage rate is 0, not undefined, when no set used the target, and the
   * upset rate is undefined exactly when no opponent was seeded better.
   */
  lemma FinalizeCharacterFields(a: Aggregate, assumeTargetMain: bool)
    requires a.stateCounts.Valid() && a.setsPlayed > 0
    requires !assumeTargetMain || a.characterSets > 0
    ensures var row := Finalize(a, assumeTargetMain);
      && row.characterSets == a.characterSets
      && (a.characterSets == 0 ==> row.characterUsageRate == 0.0 && row.characterWinRate.None?)
      && (row.upsetRate.None? <==> a.setsVsHigherSeed == 0)
  {
  }

  /**
   * `assume_target_main` changes a row only when no set used the target, and
   * then only the four character fields, which copy the overall ones.
   */
  lemma AssumeMainOverride(a: Aggregate)
    requires a.stateCounts.Valid() && a.setsPlayed > 0
    ensures a.characterSets > 0 ==> Finalize(a, true) == Finalize(a, false)
    ensures a.characterSets == 0 ==>
      var row := Finalize(a, false);
      Finalize(a, true) == row.(characterSets := row.setsPlayed, characterWinRate := row.winRate,
                                characterWeightedWinRate := row.weightedWinRate, characterUsageRate := 1.0)
  {
  }

  /** `c / t > 0.5` exactly when `c` is more than half of `t`. */
  lemma MajorityShare(c: nat, t: nat)
    requires t > 0
    ensures c as real / t as real > InferenceThreshold <==> 2 * c > t
  {
    var q := c as real / t as real;
    assert q * t as real == c as real;
    if q > InferenceThreshold {
      assert q * t as real > InferenceThreshold * t as real;
    } else {
      assert q * t as real <= InferenceThreshold * t as real;
    }
  }

  /**
   * A state is inferred exactly when it is not `UNKNOWN` and holds more than
   * half of the counted events; its confidence is its share, in (0.5, 1].
   */
  lemma InferStateMajority(counts: Dict<string, nat>, s: string)
    requires counts.Valid()
    ensures InferState(counts).0 == Some(s) <==>
      s in counts.entries && s != "UNKNOWN" && 2 * counts.entries[s] > SumValues(counts)
    ensures InferState(counts).0 == Some(s) ==>
      InferState(counts).1 == Some(counts.entries[s] as real / SumValues(counts) as real)
    ensures InferState(counts).1.Some? ==> InferenceThreshold < InferState(counts).1.value <= 1.0
  {
    var total := SumValues(counts);
    if total > 0 {
      var top := FirstMaxKey(counts);
      var c := counts.entries[top];
      var i :| 0 <= i < |counts.keys| && counts.keys[i] == top;
      SumOverAtLeastOne(counts.keys, counts.entries, i);
      MajorityShare(c, total);
      FractionInUnit(c as real, total as real);
      if s in counts.entries && s != top {
        var j :| 0 <= j < |counts.keys| && counts.keys[j] == s;
        SumOverAtLeastTwo(counts.keys, counts.entries, i, j);
      }
    } else if s in counts.entries {
      var j :| 0 <= j < |counts.keys| && counts.keys[j] == s;
      SumOverAtLeastOne(counts.keys, counts.entries, j);
    }
  }

  /**
   * The home state is the explicit state when there is one, with confidence
   * 1; otherwise the inferred state with its share as confidence.
   */
  lemma HomeStateRule(a: Aggregate, assumeTargetMain: bool)
    requires a.stateCounts.Valid()
    ensures var row := Finalize(a, assumeTargetMain);
      && row.state == NormalizeState(a.state)
      && (row.homeStateInferred <==> row.state.None? && row.inferredState.Some?)
      && row.homeState == (if row.state.Some? then row.state else row.inferredState)
      && row.homeStateConfidence == (if row.state.Some? then Some(1.0) else row.inferredStateConfidence)
      && (row.homeStateConfidence.Some? ==> InferenceThreshold < row.homeStateConfidence.value <= 1.0)
  {
    if a.stateCounts.keys != [] {
      InferStateMajority(a.stateCounts, FirstMaxKey(a.stateCounts));
    } else {
      InferStateMajority(a.stateCounts, "UNKNOWN");
    }
  }

  // ----- the rows of a dictionary of aggregates -----

  /** Every aggregate is stored under its own player id. */
  ghost predicate Keyed(aggs: Aggregates) {
    forall p | p in aggs.entries :: aggs.entries[p].playerId == p
  }

  predicate DistinctIds(rows: seq<Row>) {
    forall i, j | 0 <= i < j < |rows| :: rows[i].playerId != rows[j].playerId
  }

  function Ids(rows: seq<Row>): set<int> {
    set row | row in rows :: row.playerId
  }

  /** `row` is the row of the aggregate stored under its player, who has a decided set. */
  ghost predicate RowOf(aggs: Aggregates, row: Row, assumeTargetMain: bool) {
    && row.playerId in aggs.entries
    && aggs.entries[row.playerId].setsPlayed > 0
    && aggs.entries[row.playerId].stateCounts.Valid()
    && row == Finalize(aggs.entries[row.playerId], assumeTargetMain)
  }

  /** Each aggregate picked is the one stored under its player, one of the first `n`. */
  lemma {:induction false} DecidedOrigin(aggs: Aggregates, n: nat)
    requires aggs.Valid() && Keyed(aggs) && n <= |aggs.keys|
    ensures forall a | a in WithDecidedSets(aggs, n) ::
      a.playerId in aggs.keys[..n] && a.playerId in aggs.entries && aggs.entries[a.playerId] == a
    decreases n
  {
    if n > 0 {
      DecidedOrigin(aggs, n - 1);
      assert aggs.keys[..n] == aggs.keys[..n - 1] + [aggs.keys[n - 1]];
    }
  }

  /** Each of the first `n` aggregates with a decided set is picked. */
  lemma {:induction false} DecidedCoverAt(aggs: Aggregates, n: nat, i: nat)
    requires aggs.Valid() && i < n <= |aggs.keys|
    requires aggs.entries[aggs.keys[i]].setsPlayed > 0
    ensures aggs.entries[aggs.keys[i]] in WithDecidedSets(aggs, n)
    decreases n
  {
    if i < n - 1 {
      DecidedCoverAt(aggs, n - 1, i);
    }
  }

  predicate DistinctPlayers(ds: seq<Aggregate>) {
    forall i, j | 0 <= i < j < |ds| :: ds[i].playerId != ds[j].playerId
  }

  /** The aggregates picked belong to distinct players. */
  lemma {:induction false} DecidedDistinct(aggs: Aggregates, n: nat)
    requires aggs.Valid() && Keyed(aggs) && n <= |aggs.keys|
    ensures DistinctPlayers(WithDecidedSets(aggs, n))
    decreases n
  {
    if n > 0 {
      DecidedDistinct(aggs, n - 1);
      DecidedOrigin(aggs, n - 1);
      var before := WithDecidedSets(aggs, n - 1);
      var ds := WithDecidedSets(aggs, n);
      var p := aggs.keys[n - 1];
      assert p !in aggs.keys[..n - 1];
      if |ds| > |before| {
        assert ds == before + [aggs.entries[p]];
        assert ds[|ds| - 1].playerId == p;
        forall i, j | 0 <= i < j < |ds| ensures ds[i].playerId != ds[j].playerId {
          if j == |ds| - 1 {
            assert ds[i] in before;
          } else {
            assert ds[i] == before[i] && ds[j] == before[j];
          }
        }
      }
    }
  }

  /** Row `k` is the row of aggregate `k`. */
  lemma {:induction false} FinalizeAllAt(ds: seq<Aggregate>, assumeTargetMain: bool)
    requires forall a | a in ds :: a.stateCounts.Valid()
    ensures forall k | 0 <= k < |ds| :: FinalizeAll(ds, assumeTargetMain)[k] == Finalize(ds[k], assumeTargetMain)
    decreases |ds|
  {
    if ds != [] {
      var init := ds[..|ds| - 1];
      FinalizeAllAt(init, assumeTargetMain);
      forall k | 0 <= k < |ds| ensures FinalizeAll(ds, assumeTargetMain)[k] == Finalize(ds[k], assumeTargetMain) {
        if k < |ds| - 1 {
          assert ds[k] == init[k];
        }
      }
    }
  }

  /** Each row keeps its aggregate's player. */
  lemma FinalizeAllIds(ds: seq<Aggregate>, assumeTargetMain: bool)
    requires forall a | a in ds :: a.stateCounts.Valid()
    ensures forall k | 0 <= k < |ds| :: FinalizeAll(ds, assumeTargetMain)[k].playerId == ds[k].playerId
  {
    FinalizeAllAt(ds, assumeTargetMain);
  }

  lemma FinalizeAllAppend(ds: seq<Aggregate>, a: Aggregate, assumeTargetMain: bool)
    requires forall x | x in ds :: x.stateCounts.Valid()
    requires a.stateCounts.Valid()
    ensures FinalizeAll(ds + [a], assumeTargetMain) == FinalizeAll(ds, assumeTargetMain) + [Finalize(a, assumeTargetMain)]
  {
    assert (ds + [a])[..|ds|] == ds;
  }

  /** Each row of the first `n` aggregates is the row of one of them that has a decided set. */
  lemma RowsFromOrigin(aggs: Aggregates, n: nat, assumeTargetMain: bool)
    requires aggs.Valid() && AllTalliesValid(aggs) && Keyed(aggs) && n <= |aggs.keys|
    ensures forall row | row in RowsFrom(aggs, n, assumeTargetMain) ::
      row.playerId in aggs.keys[..n] && RowOf(aggs, row, assumeTargetMain)
  {
    var ds := WithDecidedSets(aggs, n);
    DecidedTallies(aggs, n);
    DecidedOrigin(aggs, n);
    FinalizeAllAt(ds, assumeTargetMain);
    var rows := RowsFrom(aggs, n, assumeTargetMain);
    forall row | row in rows ensures row.playerId in aggs.keys[..n] && RowOf(aggs, row, assumeTargetMain) {
      var k :| 0 <= k < |rows| && rows[k] == row;
      var a := ds[k];
      assert a in ds;
      assert row == Finalize(a, assumeTargetMain);
    }
  }

  /** The rows' players, in row order. */
  function PlayersOf(rows: seq<Row>): (ids: seq<int>)
    ensures |ids| == |rows| && forall k | 0 <= k < |rows| :: ids[k] == rows[k].playerId
    decreases |rows|
  {
    if rows == [] then [] else PlayersOf(rows[..|rows| - 1]) + [rows[|rows| - 1].playerId]
  }

  /** Each of the first `n` aggregates with a decided set has a row. */
  lemma RowsFromCover(aggs: Aggregates, n: nat, assumeTargetMain: bool)
    requires aggs.Valid() && AllTalliesValid(aggs) && Keyed(aggs) && n <= |aggs.keys|
    ensures forall i | 0 <= i < n && aggs.entries[aggs.keys[i]].setsPlayed > 0 ::
      aggs.keys[i] in PlayersOf(RowsFrom(aggs, n, assumeTargetMain))
  {
    var ds := WithDecidedSets(aggs, n);
    DecidedTallies(aggs, n);
    FinalizeAllIds(ds, assumeTargetMain);
    var players := PlayersOf(RowsFrom(aggs, n, assumeTargetMain));
    forall i | 0 <= i < n && aggs.entries[aggs.keys[i]].setsPlayed > 0 ensures aggs.keys[i] in players {
      DecidedCoverAt(aggs, n, i);
      var k :| 0 <= k < |ds| && ds[k] == aggs.entries[aggs.keys[i]];
      assert players[k] == aggs.keys[i];
    }
  }

  /** The rows of the first `n` aggregates belong to distinct players. */
  lemma RowsFromDistinct(aggs: Aggregates, n: nat, assumeTargetMain: bool)
    requires aggs.Valid() && AllTalliesValid(aggs) && Keyed(aggs) && n <= |aggs.keys|
    ensures DistinctIds(RowsFrom(aggs, n, assumeTargetMain))
  {
    var ds := WithDecidedSets(aggs, n);
    DecidedTallies(aggs, n);
    DecidedDistinct(aggs, n);
    FinalizeAllIds(ds, assumeTargetMain);
    var rows := RowsFrom(aggs, n, assumeTargetMain);
    assert rows == FinalizeAll(ds, assumeTargetMain);
    forall i, j | 0 <= i < j < |rows| ensures rows[i].playerId != rows[j].playerId {
      assert rows[i].playerId == ds[i].playerId && rows[j].playerId == ds[j].playerId;
    }
  }

  lemma {:induction false} InsertDistinct(sorted: seq<Row>, row: Row)
    requires DistinctIds(sorted)
    requires forall x | x in sorted :: x.playerId != row.playerId
    ensures DistinctIds(Insert(sorted, row))
    decreases |sorted|
  {
    if sorted != [] && RanksFirst(sorted[0], row) {
      var rest := Insert(sorted[1..], row);
      InsertDistinct(sorted[1..], row);
      InsertPermutes(sorted[1..], row);
      forall x | x in rest ensures x.playerId != sorted[0].playerId {
        assert x in multiset(rest);
        if x != row {
          var k :| 0 <= k < |sorted[1..]| && sorted[1..][k] == x;
          assert sorted[k + 1] == x;
        }
      }
    }
  }

  /** Sorting keeps one row per player. */
  lemma {:induction false} SortRowsDistinct(rows: seq<Row>)
    requires DistinctIds(rows)
    ensures DistinctIds(SortRows(rows))
    decreases |rows|
  {
    if rows != [] {
      var init, last := rows[..|rows| - 1], rows[|rows| - 1];
      SortRowsDistinct(init);
      SortRowsSortsAndPermutes(init);
      forall x | x in SortRows(init) ensures x.playerId != last.playerId {
        assert x in multiset(SortRows(init));
        var k :| 0 <= k < |init| && init[k] == x;
        assert rows[k] == x;
      }
      InsertDistinct(SortRows(init), last);
    }
  }

  // ===================== compute_player_metrics =====================

  /** The rows `compute_player_metrics` returns. */
  function PlayerMetrics(results: seq<PlayerEventResult>, target: string, assumeTargetMain: bool,
                         nowTs: int, math: Transcendentals): seq<Row>
  {
    var aggs := Fold(results, target, nowTs, math);
    FoldConsistent(results, target, nowTs, math);
    ConsistentTallies(Fold(results, target, nowTs, math));
    SortRows(RowsFrom(aggs, |aggs.keys|, assumeTargetMain))
  }

  /** The report is the sorted rows read off the fold's values in order. */
  lemma PlayerMetricsByValues(results: seq<PlayerEventResult>, target: string, assumeTargetMain: bool,
                              nowTs: int, math: Transcendentals)
    ensures var aggs := Fold(results, target, nowTs, math);
      && aggs.Valid()
      && (forall i | 0 <= i < |aggs.keys| :: aggs.Values()[i].stateCounts.Valid())
      && PlayerMetrics(results, target, assumeTargetMain, nowTs, math) == SortRows(RowsOf(aggs.Values(), assumeTargetMain))
  {
    var aggs := Fold(results, target, nowTs, math);
    FoldConsistent(results, target, nowTs, math);
    ConsistentTallies(aggs);
    RowsOfValues(aggs, assumeTargetMain);
  }

  /** The facts about the fold that the rows rest on. */
  lemma FoldFacts(results: seq<PlayerEventResult>, target: string, nowTs: int, math: Transcendentals)
    ensures var aggs := Fold(results, target, nowTs, math);
      && AllConsistent(aggs) && AllTalliesValid(aggs) && Keyed(aggs)
      && (forall p :: p in aggs.entries <==> EventsOf(results, p) > 0)
  {
    FoldConsistent(results, target, nowTs, math);
    ConsistentTallies(Fold(results, target, nowTs, math));
    FoldMembers(results, target, nowTs, math);
  }

  /**
   * The rows are sorted by weighted win rate, highest first, and there is
   * exactly one per player with a set of known outcome: a player whose
   * every set is undecided, or who has no set, gets none.
   */
  lemma PlayerMetricsPlayers(results: seq<PlayerEventResult>, target: string, assumeTargetMain: bool,
                             nowTs: int, math: Transcendentals)
    ensures var rows := PlayerMetrics(results, target, assumeTargetMain, nowTs, math);
      && SortedByRate(rows)
      && DistinctIds(rows)
      && (forall p :: p in Ids(rows) <==> DecidedOf(results, p) > 0)
  {
    var aggs := Fold(results, target, nowTs, math);
    FoldFacts(results, target, nowTs, math);
    FoldCounts(results, target, nowTs, math);
    var n := |aggs.keys|;
    var unsorted := RowsFrom(aggs, n, assumeTargetMain);
    assert aggs.keys[..n] == aggs.keys;
    RowsFromOrigin(aggs, n, assumeTargetMain);
    RowsFromCover(aggs, n, assumeTargetMain);
    RowsFromDistinct(aggs, n, assumeTargetMain);
    SortRowsSortsAndPermutes(unsorted);
    SortRowsDistinct(unsorted);
    var rows := SortRows(unsorted);
    assert rows == PlayerMetrics(results, target, assumeTargetMain, nowTs, math);
    forall p ensures p in Ids(rows) <==> DecidedOf(results, p) > 0 {
      if DecidedOf(results, p) > 0 {
        if EventsOf(results, p) == 0 {
          EventsZeroNoSets(results, p);
        }
        var i :| 0 <= i < n && aggs.keys[i] == p;
        assert p in PlayersOf(unsorted);
        var k :| 0 <= k < |unsorted| && PlayersOf(unsorted)[k] == p;
        var row := unsorted[k];
        assert row in multiset(unsorted);
        assert row in rows;
      }
      if p in Ids(rows) {
        var row :| row in rows && row.playerId == p;
        assert row in multiset(rows);
        assert row in unsorted;
      }
    }
  }

  /**
   * Each row counts its player's results, decided sets and won sets, and
   * has both win rates defined and every rate in [0, 1].
   */
  lemma PlayerMetricsRowValues(results: seq<PlayerEventResult>, target: string, assumeTargetMain: bool,
                               nowTs: int, math: Transcendentals)
    ensures forall row | row in PlayerMetrics(results, target, assumeTargetMain, nowTs, math) ::
      && RowBounded(row)
      && row.eventsPlayed == EventsOf(results, row.playerId)
      && row.setsPlayed == DecidedOf(results, row.playerId) > 0
      && row.winRate == Some(WonOf(results, row.playerId) as real / DecidedOf(results, row.playerId) as real)
  {
    var aggs := Fold(results, target, nowTs, math);
    FoldFacts(results, target, nowTs, math);
    FoldCounts(results, target, nowTs, math);
    var n := |aggs.keys|;
    var unsorted := RowsFrom(aggs, n, assumeTargetMain);
    assert aggs.keys[..n] == aggs.keys;
    RowsFromOrigin(aggs, n, assumeTargetMain);
    SortRowsSortsAndPermutes(unsorted);
    var rows := SortRows(unsorted);
    assert rows == PlayerMetrics(results, target, assumeTargetMain, nowTs, math);
    forall row | row in rows
      ensures && RowBounded(row)
              && row.eventsPlayed == EventsOf(results, row.playerId)
              && row.setsPlayed == DecidedOf(results, row.playerId) > 0
              && row.winRate == Some(WonOf(results, row.playerId) as real / DecidedOf(results, row.playerId) as real)
    {
      assert row in multiset(rows);
      assert RowOf(aggs, row, assumeTargetMain);
      var a := aggs.entries[row.playerId];
      assert Consistent(a);
      FinalizeBounded(a, assumeTargetMain);
    }
  }

  /** The output is empty exactly when no player has a set of known outcome. */
  lemma NoDecidedSetNoRows(results: seq<PlayerEventResult>, target: string, assumeTargetMain: bool,
                           nowTs: int, math: Transcendentals)
    ensures PlayerMetrics(results, target, assumeTargetMain, nowTs, math) == [] <==>
      forall p :: DecidedOf(results, p) == 0
  {
    var rows := PlayerMetrics(results, target, assumeTargetMain, nowTs, math);
    PlayerMetricsPlayers(results, target, assumeTargetMain, nowTs, math);
    if rows != [] {
      var p := rows[0].playerId;
      assert p in Ids(rows);
      assert DecidedOf(results, p) > 0;
    } else {
      forall p ensures DecidedOf(results, p) == 0 {
        assert p !in Ids(rows);
      }
    }
  }

  // ===================== a worked example =====================

  /**
   * One result of a 32-entrant event: seeded 5th, placed 3rd, a win over the
   * 2nd seed and a loss to the 7th, both sets played with `characters`.
   */
  function ExampleResult(characters: seq<string>): PlayerEventResult {
    var location := map["city" := Some("Atlanta"), "state" := Some("GA"), "country" := Some("USA")];
    var player := Player(Some(1000), Some("Alice"), Some(User(Some(location))));
    var win := SetRecord(Some(1), Some(true), Some(2), [2000], ["Bob"], Some(2), Some(2),
                         Some("Winners Quarterfinals"), Some(1_700_000_100), characters);
    var loss := SetRecord(Some(2), Some(false), Some(3), [3000], ["Carol"], Some(7), Some(5),
                          Some("Winners Semifinals"), Some(1_700_000_200), characters);
    PlayerEventResult(
      1000, "Alice", Some(1), Some(5), Some(3),
      Participant(Some("Alice"), None, Some(player)),
      Event(Some(10), Some("Test Event"), Some(1_700_000_000), Some(32), None, None, None, None),
      Tournament(Some("Test Tournament"), Some("GA")),
      [win, loss])
  }

  /** The same weight on two sets, one of them won, is a weighted win rate of one half. */
  lemma HalfOfTwice(w: real)
    requires w > 0.0
    ensures w / (w + w) == 0.5
  {
    assert 0.5 * (w + w) == w;
  }

  /** Two sets are read one after the other. */
  lemma AddSetsTwo(a: Aggregate, first: SetRecord, second: SetRecord, seedNum: Option<int>, weight: real, target: string)
    ensures AddSets(a, [first, second], seedNum, weight, target)
         == AddSet(AddSet(a, first, seedNum, weight, target), second, seedNum, weight, target)
  {
    assert [first, second][..1] == [first];
    assert [first][..0] == [];
    assert AddSets(a, [first], seedNum, weight, target) == AddSet(a, first, seedNum, weight, target);
  }

  /** The aggregate of a player's only result. */
  function OnlyAggregate(r: PlayerEventResult, target: string, nowTs: int, math: Transcendentals): Aggregate {
    AddResult(NewAggregate(r.playerId, r.gamerTag, LocationState(r)), r, EventWeight(r.event, nowTs, math), target)
  }

  /** A single result with a decided set gives a single row, that of its aggregate. */
  lemma PlayerMetricsOfOne(r: PlayerEventResult, target: string, assumeTargetMain: bool, nowTs: int, math: Transcendentals)
    requires OnlyAggregate(r, target, nowTs, math).setsPlayed > 0
    ensures OnlyAggregate(r, target, nowTs, math).stateCounts.Valid()
    ensures PlayerMetrics([r], target, assumeTargetMain, nowTs, math)
         == [Finalize(OnlyAggregate(r, target, nowTs, math), assumeTargetMain)]
  {
    var a := OnlyAggregate(r, target, nowTs, math);
    AddResultConsistent(NewAggregate(r.playerId, r.gamerTag, LocationState(r)), r, EventWeight(r.event, nowTs, math), target);
    var none: seq<PlayerEventResult> := [];
    assert [r][..0] == none;
    assert Fold(none, target, nowTs, math) == Empty();
    var aggs := Fold([r], target, nowTs, math);
    assert aggs == FoldStep(Fold(none, target, nowTs, math), r, target, nowTs, math);
    assert aggs == Empty().Put(r.playerId, a);
    assert RowsFrom(aggs, 1, assumeTargetMain) == [Finalize(a, assumeTargetMain)];
    var row := Finalize(a, assumeTargetMain);
    assert [row][..0] == [];
    assert SortRows([row]) == [row];
  }

  /** The example's aggregate, whatever the event's weight. */
  lemma ExampleAggregate(characters: seq<string>, target: string, nowTs: int, math: Transcendentals)
    ensures var a := OnlyAggregate(ExampleResult(characters), target, nowTs, math);
      && a.playerId == 1000 && a.eventsPlayed == 1 && a.setsPlayed == 2 && a.wins == 1
      && a.seedDeltas == [2.0]
      && a.setsVsHigherSeed == 1 && a.winsVsHigherSeed == 1
      && a.weightedWins > 0.0 && a.weightSum == a.weightedWins + a.weightedWins
      && (UsesTargetCharacter(characters, target) ==>
            a.characterSets == 2 && a.characterWins == 1
            && a.characterWeightSum == a.weightedWins + a.weightedWins)
      && (!UsesTargetCharacter(characters, target) ==> a.characterSets == 0)
  {
    var r := ExampleResult(characters);
    var w := EventWeight(r.event, nowTs, math);
    var e := AddEvent(NewAggregate(r.playerId, r.gamerTag, LocationState(r)), r);
    ExampleEvent(characters, LocationState(r));
    AddSetsTwo(e, r.sets[0], r.sets[1], r.seedNum, w, target);
  }

  /** What the example's result adds before its sets are read. */
  lemma ExampleEvent(characters: seq<string>, state: Option<string>)
    ensures var e := AddEvent(NewAggregate(1000, "Alice", state), ExampleResult(characters));
      && e.playerId == 1000 && e.eventsPlayed == 1 && e.seedDeltas == [2.0]
      && e.setsPlayed == 0 && e.wins == 0 && e.weightSum == 0.0 && e.weightedWins == 0.0
      && e.characterSets == 0 && e.characterWins == 0
      && e.characterWeightSum == 0.0 && e.characterWeightedWins == 0.0
      && e.setsVsHigherSeed == 0 && e.winsVsHigherSeed == 0
  {
  }

  /** The row of an aggregate with the example's counts. */
  lemma ExampleRowFields(a: Aggregate, assumeTargetMain: bool)
    requires a.stateCounts.Valid() && a.eventsPlayed == 1 && a.setsPlayed == 2 && a.wins == 1
    requires a.seedDeltas == [2.0] && a.setsVsHigherSeed == 1 && a.winsVsHigherSeed == 1
    requires a.weightedWins > 0.0 && a.weightSum == a.weightedWins + a.weightedWins
    requires a.characterSets == 2 ==> a.characterWins == 1 && a.characterWeightSum == a.weightSum
    requires a.characterSets == 2 || a.characterSets == 0
    ensures var row := Finalize(a, assumeTargetMain);
      && row.eventsPlayed == 1 && row.setsPlayed == 2
      && row.winRate == Some(0.5) && row.weightedWinRate == Some(0.5)
      && row.avgSeedDelta == Some(2.0) && row.upsetRate == Some(1.0)
    ensures var row := Finalize(a, assumeTargetMain);
      a.characterSets == 2 ==>
        row.characterSets == 2 && row.characterWinRate == Some(0.5) && row.characterUsageRate == 1.0
    ensures var row := Finalize(a, assumeTargetMain);
      a.characterSets == 0 && !assumeTargetMain ==>
        row.characterSets == 0 && row.characterWinRate.None? && row.characterUsageRate == 0.0
    ensures var row := Finalize(a, assumeTargetMain);
      a.characterSets == 0 && assumeTargetMain ==>
        && row.characterSets == 2 && row.characterWinRate == Some(0.5)
        && row.characterWeightedWinRate == Some(0.5) && row.characterUsageRate == 1.0
  {
    HalfOfTwice(a.weightedWins);
    assert [2.0][..0] == [];
    assert Mean([2.0]) == Some(2.0);
  }

  /**
   * With the target character on both sets, the row has win rate 0.5,
   * weighted win rate 0.5, average seed delta 2, two target sets at win rate
   * 0.5, usage 1 and upset rate 1.
   */
  lemma SinglePlayerExample(nowTs: int, math: Transcendentals)
    ensures var rows := PlayerMetrics([ExampleResult(["Marth"])], "Marth", false, nowTs, math);
      && |rows| == 1
      && rows[0].playerId == 1000 && rows[0].eventsPlayed == 1 && rows[0].setsPlayed == 2
      && rows[0].winRate == Some(0.5) && rows[0].weightedWinRate == Some(0.5)
      && rows[0].avgSeedDelta == Some(2.0)
      && rows[0].characterSets == 2 && rows[0].characterWinRate == Some(0.5)
      && rows[0].characterUsageRate == 1.0 && rows[0].upsetRate == Some(1.0)
  {
    assert UsesTargetCharacter(["Marth"], "Marth");
    var r := ExampleResult(["Marth"]);
    ExampleAggregate(["Marth"], "Marth", nowTs, math);
    PlayerMetricsOfOne(r, "Marth", false, nowTs, math);
    ExampleRowFields(OnlyAggregate(r, "Marth", nowTs, math), false);
  }

  /**
   * With no character reported, the target's fields are empty, unless the
   * target is assumed to be the player's main: then they are the overall ones.
   */
  lemma AssumedMainExample(nowTs: int, math: Transcendentals)
    ensures var rows := PlayerMetrics([ExampleResult([])], "Marth", false, nowTs, math);
      && |rows| == 1 && rows[0].characterSets == 0 && rows[0].characterWinRate.None?
      && rows[0].characterUsageRate == 0.0
    ensures var rows := PlayerMetrics([ExampleResult([])], "Marth", true, nowTs, math);
      && |rows| == 1 && rows[0].characterSets == 2 && rows[0].characterWinRate == Some(0.5)
      && rows[0].characterWeightedWinRate == Some(0.5) && rows[0].characterUsageRate == 1.0
  {
    assert !UsesTargetCharacter([], "Marth");
    var r := ExampleResult([]);
    ExampleAggregate([], "Marth", nowTs, math);
    PlayerMetricsOfOne(r, "Marth", false, nowTs, math);
    PlayerMetricsOfOne(r, "Marth", true, nowTs, math);
    ExampleRowFields(OnlyAggregate(r, "Marth", nowTs, math), false);
    ExampleRowFields(OnlyAggregate(r, "Marth", nowTs, math), true);
  }
}
