/**
 * `compute_player_metrics` as the source runs it: one mutable
 * `PlayerAggregate` per player id, created on the player's first result and
 * updated in place, then one row per aggregate in first-seen order, then the
 * sort. Each step is proved to compute what module `Metrics` specifies.
 */
module MetricsEngine {
  import opened Wrappers
  import opened Dicts
  import opened Payloads
  import opened SmashData
  import opened Metrics

  /** `PlayerAggregate`: one player's running counts. */
  class PlayerAggregate {
    const playerId: int
    const gamerTag: string
    const state: Option<string>
    var tournaments: set<string>
    var eventsPlayed: nat
    var setsPlayed: nat
    var wins: nat
    var weightedWins: real
    var weightSum: real
    var seedDeltas: seq<real>
    var opponentStrengths: seq<real>
    var setsVsHigherSeed: nat
    var winsVsHigherSeed: nat
    var characterSets: nat
    var characterWins: nat
    var characterWeightedWins: real
    var characterWeightSum: real
    var latestEventStart: int
    var eventSizes: seq<int>
    var stateCounts: Dict<string, nat>

    /** The fields, as a value. */
    function Value(): Aggregate
      reads this
    {
      Aggregate(playerId, gamerTag, state, tournaments, eventsPlayed, setsPlayed, wins, weightedWins, weightSum,
                seedDeltas, opponentStrengths, setsVsHigherSeed, winsVsHigherSeed, characterSets, characterWins,
                characterWeightedWins, characterWeightSum, latestEventStart, eventSizes, stateCounts)
    }

    constructor (playerId: int, gamerTag: string, state: Option<string>)
      ensures Value() == NewAggregate(playerId, gamerTag, state)
    {
      this.playerId := playerId;
      this.gamerTag := gamerTag;
      this.state := state;
      tournaments := {};
      eventsPlayed := 0;
      setsPlayed := 0;
      wins := 0;
      weightedWins := 0.0;
      weightSum := 0.0;
      seedDeltas := [];
      opponentStrengths := [];
      setsVsHigherSeed := 0;
      winsVsHigherSeed := 0;
      characterSets := 0;
      characterWins := 0;
      characterWeightedWins := 0.0;
      characterWeightSum := 0.0;
      latestEventStart := 0;
      eventSizes := [];
      stateCounts := Empty();
    }

    /** The updates one result makes before its sets are read. */
    method RecordEvent(r: PlayerEventResult)
      modifies this
      ensures Value() == AddEvent(old(Value()), r)
      ensures Consistent(old(Value())) ==> Consistent(Value())
    {
      ghost var a := Value();
      CountEvent(r);
      ghost var b := Value();
      NoteEventSize(r.event);
      ghost var c := Value();
      var tournamentState := r.tournament.addrState;
      if TextTruthy(tournamentState) {
        var stateKey := match NormalizeState(tournamentState) case Some(k) => k case None => "UNKNOWN";
        stateCounts := stateCounts.Put(stateKey, stateCounts.Get(stateKey, 0) + 1);
      }
      EventUpdates(a, b, c, Value(), r);
      if Consistent(a) {
        AddEventConsistent(a, r);
      }
    }

    /** The event, its tournament and the seed-to-placement gap. */
    method CountEvent(r: PlayerEventResult)
      modifies this
      ensures Value() == old(Value()).(
        eventsPlayed := old(eventsPlayed) + 1,
        tournaments := if TextTruthy(r.tournament.name) then old(tournaments) + {r.tournament.name.value} else old(tournaments),
        seedDeltas := if r.seedNum.Some? && r.placement.Some? then old(seedDeltas) + [(r.seedNum.value - r.placement.value) as real]
                      else old(seedDeltas))
    {
      eventsPlayed := eventsPlayed + 1;
      var tournamentName := r.tournament.name;
      if TextTruthy(tournamentName) {
        tournaments := tournaments + {tournamentName.value};
      }
      if r.seedNum.Some? && r.placement.Some? {
        seedDeltas := seedDeltas + [(r.seedNum.value - r.placement.value) as real];
      }
    }

    /** The latest start and the event's size. */
    method NoteEventSize(event: Event)
      modifies this
      ensures Value() == old(Value()).(
        latestEventStart := if IntTruthy(event.startAt) && event.startAt.value > old(latestEventStart) then event.startAt.value
                            else old(latestEventStart),
        eventSizes := if IntTruthy(event.numEntrants) then old(eventSizes) + [event.numEntrants.value] else old(eventSizes))
    {
      var eventStart := event.startAt;
      if IntTruthy(eventStart) && eventStart.value > latestEventStart {
        latestEventStart := eventStart.value;
      }
      var eventSize := event.numEntrants;
      if IntTruthy(eventSize) {
        eventSizes := eventSizes + [eventSize.value];
      }
    }

    /** The updates one set makes: none when its outcome is unknown. */
    method RecordSet(rec: SetRecord, seedNum: Option<int>, weight: real, target: string)
      modifies this
      ensures Value() == AddSet(old(Value()), rec, seedNum, weight, target)
    {
      if rec.won.Some? {
        var won := rec.won.value;
        ghost var a := Value();
        CountOutcome(won, weight);
        ghost var b := Value();
        var strength := OpponentStrength(rec);
        if strength.Some? {
          opponentStrengths := opponentStrengths + [strength.value];
        }
        ghost var c := Value();
        CountSeedGap(rec, seedNum, won);
        ghost var d := Value();
        if UsesTargetCharacter(rec.characters, target) {
          CountCharacter(won, weight);
        }
        SetUpdates(a, b, c, d, Value(), rec, seedNum, weight, target);
      }
    }

    /** Sets played, wins, and the weighted counts. */
    method CountOutcome(won: bool, weight: real)
      modifies this
      ensures Value() == old(Value()).(
        setsPlayed := old(setsPlayed) + 1,
        wins := if won then old(wins) + 1 else old(wins),
        weightedWins := if won then old(weightedWins) + weight else old(weightedWins),
        weightSum := old(weightSum) + weight)
    {
      setsPlayed := setsPlayed + 1;
      if won {
        wins := wins + 1;
        weightedWins := weightedWins + weight;
      }
      weightSum := weightSum + weight;
    }

    /** The counts of sets against a better-seeded opponent. */
    method CountSeedGap(rec: SetRecord, seedNum: Option<int>, won: bool)
      modifies this
      ensures Value() == old(Value()).(
        setsVsHigherSeed := if VsHigherSeed(rec, seedNum) then old(setsVsHigherSeed) + 1 else old(setsVsHigherSeed),
        winsVsHigherSeed := if VsHigherSeed(rec, seedNum) && won then old(winsVsHigherSeed) + 1 else old(winsVsHigherSeed))
    {
      if rec.opponentSeed.Some? && seedNum.Some? && rec.opponentSeed.value < seedNum.value {
        setsVsHigherSeed := setsVsHigherSeed + 1;
        if won {
          winsVsHigherSeed := winsVsHigherSeed + 1;
        }
      }
    }

    /** The counts of sets played with the target character. */
    method CountCharacter(won: bool, weight: real)
      modifies this
      ensures Value() == old(Value()).(
        characterSets := old(characterSets) + 1,
        characterWins := if won then old(characterWins) + 1 else old(characterWins),
        characterWeightedWins := if won then old(characterWeightedWins) + weight else old(characterWeightedWins),
        characterWeightSum := old(characterWeightSum) + weight)
    {
      characterSets := characterSets + 1;
      if won {
        characterWins := characterWins + 1;
        characterWeightedWins := characterWeightedWins + weight;
      }
      characterWeightSum := characterWeightSum + weight;
    }

    /** One turn of the loop over results, for this player: the event, then its sets in order. */
    method RecordResult(r: PlayerEventResult, weight: real, target: string)
      modifies this
      ensures Value() == AddResult(old(Value()), r, weight, target)
      ensures Consistent(old(Value())) && weight >= MinEventWeight ==> Consistent(Value())
    {
      ghost var before := Value();
      RecordEvent(r);
      ghost var afterEvent := Value();
      for j := 0 to |r.sets|
        invariant Value() == AddSets(afterEvent, r.sets[..j], r.seedNum, weight, target)
      {
        assert r.sets[..j + 1][..j] == r.sets[..j];
        RecordSet(r.sets[j], r.seedNum, weight, target);
      }
      assert r.sets[..|r.sets|] == r.sets;
      if Consistent(before) && weight >= MinEventWeight {
        AddResultConsistent(before, r, weight, target);
      }
    }
  }

  /** A result's updates, made in three stages: the event, its size and start, its tournament's state. */
  lemma EventUpdates(a: Aggregate, b: Aggregate, c: Aggregate, d: Aggregate, r: PlayerEventResult)
    requires b == a.(
      eventsPlayed := a.eventsPlayed + 1,
      tournaments := if TextTruthy(r.tournament.name) then a.tournaments + {r.tournament.name.value} else a.tournaments,
      seedDeltas := if r.seedNum.Some? && r.placement.Some? then a.seedDeltas + [(r.seedNum.value - r.placement.value) as real]
                    else a.seedDeltas)
    requires c == b.(
      latestEventStart := if IntTruthy(r.event.startAt) && r.event.startAt.value > b.latestEventStart then r.event.startAt.value
                          else b.latestEventStart,
      eventSizes := if IntTruthy(r.event.numEntrants) then b.eventSizes + [r.event.numEntrants.value] else b.eventSizes)
    requires d == c.(stateCounts := if TextTruthy(r.tournament.addrState) then Increment(c.stateCounts, StateKey(r.tournament.addrState))
                                    else c.stateCounts)
    ensures d == AddEvent(a, r)
  {
  }

  /**
   * A decided set's updates, made in four stages: the outcome, the
   * opponent's strength, the seed gap, the target character.
   */
  lemma SetUpdates(a: Aggregate, b: Aggregate, c: Aggregate, d: Aggregate, e: Aggregate,
                   rec: SetRecord, seedNum: Option<int>, weight: real, target: string)
    requires rec.won.Some?
    requires b == a.(
      setsPlayed := a.setsPlayed + 1,
      wins := if rec.won.value then a.wins + 1 else a.wins,
      weightedWins := if rec.won.value then a.weightedWins + weight else a.weightedWins,
      weightSum := a.weightSum + weight)
    requires var strength := OpponentStrength(rec);
      c == b.(opponentStrengths := if strength.Some? then b.opponentStrengths + [strength.value] else b.opponentStrengths)
    requires d == c.(
      setsVsHigherSeed := if VsHigherSeed(rec, seedNum) then c.setsVsHigherSeed + 1 else c.setsVsHigherSeed,
      winsVsHigherSeed := if VsHigherSeed(rec, seedNum) && rec.won.value then c.winsVsHigherSeed + 1 else c.winsVsHigherSeed)
    requires UsesTargetCharacter(rec.characters, target) ==> e == d.(
      characterSets := d.characterSets + 1,
      characterWins := if rec.won.value then d.characterWins + 1 else d.characterWins,
      characterWeightedWins := if rec.won.value then d.characterWeightedWins + weight else d.characterWeightedWins,
      characterWeightSum := d.characterWeightSum + weight)
    requires !UsesTargetCharacter(rec.characters, target) ==> e == d
    ensures e == AddSet(a, rec, seedNum, weight, target)
  {
  }

  /** Each aggregate is stored under its own player's id, so no two players share one. */
  predicate StoredUnderId(aggregates: map<int, PlayerAggregate>) {
    forall p | p in aggregates :: aggregates[p].playerId == p
  }

  /** `compute_player_metrics`: the fold over results, the rows, the sort. */
  method ComputePlayerMetrics(results: seq<PlayerEventResult>, target: string, assumeTargetMain: bool,
                              nowTs: int, math: Transcendentals)
    returns (rows: seq<Row>)
    ensures rows == PlayerMetrics(results, target, assumeTargetMain, nowTs, math)
  {
    var aggregates, order := FoldResults(results, target, nowTs, math);
    ghost var aggs := Fold(results, target, nowTs, math);
    PlayerMetricsByValues(results, target, assumeTargetMain, nowTs, math);
    StoredValues(aggregates, order, aggs);
    rows := CollectRows(aggregates, order, assumeTargetMain, aggs.Values());
    rows := SortRows(rows);
  }

  /** The objects, visited in first-seen order, hold the dictionary's values in order. */
  lemma StoredValues(aggregates: map<int, PlayerAggregate>, order: seq<int>, aggs: Aggregates)
    requires aggs.Valid() && order == aggs.keys && aggregates.Keys == aggs.entries.Keys
    requires forall p | p in aggregates :: aggregates[p].Value() == aggs.entries[p]
    ensures forall i | 0 <= i < |order| :: order[i] in aggregates && aggregates[order[i]].Value() == aggs.Values()[i]
  {
  }

  /** The loop over results. */
  method FoldResults(results: seq<PlayerEventResult>, target: string, nowTs: int, math: Transcendentals)
    returns (aggregates: map<int, PlayerAggregate>, order: seq<int>)
    ensures StoredUnderId(aggregates)
    ensures order == Fold(results, target, nowTs, math).keys
    ensures aggregates.Keys == Fold(results, target, nowTs, math).entries.Keys
    ensures forall p | p in aggregates :: aggregates[p].Value() == Fold(results, target, nowTs, math).entries[p]
  {
    aggregates, order := map[], [];
    ghost var values: map<int, Aggregate> := map[];
    for i := 0 to |results|
      invariant forall p | p in aggregates :: fresh(aggregates[p])
      invariant StoredUnderId(aggregates)
      invariant values == Fold(results[..i], target, nowTs, math).entries
      invariant order == Fold(results[..i], target, nowTs, math).keys
      invariant aggregates.Keys == values.Keys
      invariant forall p | p in aggregates :: aggregates[p].Value() == values[p]
    {
      var r := results[i];
      var eventWeight := EventWeight(r.event, nowTs, math);
      FoldNext(results, i, target, nowTs, math);
      aggregates, order, values := RecordOne(aggregates, order, r, eventWeight, target, values);
    }
    assert results[..|results|] == results;
  }

  /**
   * One turn of the loop: find or create the player's aggregate, then record the result in it.
   * `values` mirrors the aggregates' contents as plain values.
   */
  method RecordOne(aggregates0: map<int, PlayerAggregate>, order0: seq<int>, r: PlayerEventResult,
                   eventWeight: real, target: string, ghost values0: map<int, Aggregate>)
    returns (aggregates: map<int, PlayerAggregate>, order: seq<int>, ghost values: map<int, Aggregate>)
    requires StoredUnderId(aggregates0)
    requires aggregates0.Keys == values0.Keys
    requires forall p | p in aggregates0 :: aggregates0[p].Value() == values0[p]
    modifies set p | p in aggregates0 :: aggregates0[p]
    ensures StoredUnderId(aggregates)
    ensures forall p | p in aggregates :: (p in aggregates0 && aggregates[p] == aggregates0[p]) || fresh(aggregates[p])
    ensures order == if r.playerId in aggregates0 then order0 else order0 + [r.playerId]
    ensures aggregates.Keys == values.Keys
    ensures forall p | p in aggregates :: aggregates[p].Value() == values[p]
    ensures values == values0[r.playerId := AddResult(StoredOrNew(values0, r), r, eventWeight, target)]
  {
    var agg;
    aggregates, order, agg := AggregateFor(aggregates0, order0, r, values0);
    assert (r.playerId in aggregates0 && agg == aggregates0[r.playerId]) || fresh(agg);
    values := RecordInto(aggregates, agg, r, eventWeight, target, values0, StoredOrNew(values0, r));
  }

  /** `agg.add_result(...)` on the aggregate stored for the result's player; the others keep their contents. */
  method RecordInto(aggregates: map<int, PlayerAggregate>, agg: PlayerAggregate, r: PlayerEventResult,
                    eventWeight: real, target: string, ghost values0: map<int, Aggregate>, ghost a: Aggregate)
    returns (ghost values: map<int, Aggregate>)
    requires StoredUnderId(aggregates)
    requires r.playerId in aggregates && agg == aggregates[r.playerId] && agg.Value() == a
    requires aggregates.Keys == values0.Keys + {r.playerId}
    requires forall p | p in aggregates && p != r.playerId :: aggregates[p].Value() == values0[p]
    modifies agg
    ensures values == values0[r.playerId := AddResult(a, r, eventWeight, target)]
    ensures forall p | p in aggregates :: aggregates[p].Value() == values[p]
  {
    agg.RecordResult(r, eventWeight, target);
    values := values0[r.playerId := agg.Value()];
    forall p | p in aggregates ensures aggregates[p].Value() == values[p] {
      if p != r.playerId {
        assert aggregates[p] != agg;
      }
    }
  }

  /** The aggregate stored for the result's player, or a new one on the player's first result. */
  function StoredOrNew(values: map<int, Aggregate>, r: PlayerEventResult): Aggregate {
    if r.playerId in values then values[r.playerId] else NewAggregate(r.playerId, r.gamerTag, LocationState(r))
  }

  /** One more result in the specified fold stores the player's updated aggregate. */
  lemma FoldNext(results: seq<PlayerEventResult>, i: nat, target: string, nowTs: int, math: Transcendentals)
    requires i < |results|
    ensures var before, r := Fold(results[..i], target, nowTs, math), results[i];
      Fold(results[..i + 1], target, nowTs, math)
        == before.Put(r.playerId, AddResult(StoredOrNew(before.entries, r), r, EventWeight(r.event, nowTs, math), target))
  {
    assert results[..i + 1][..i] == results[..i];
  }

  /** `aggregates.get(player_id)`, or a new aggregate stored for the player on their first result. */
  method AggregateFor(aggregates0: map<int, PlayerAggregate>, order0: seq<int>, r: PlayerEventResult,
                      ghost values0: map<int, Aggregate>)
    returns (aggregates: map<int, PlayerAggregate>, order: seq<int>, agg: PlayerAggregate)
    requires StoredUnderId(aggregates0)
    requires aggregates0.Keys == values0.Keys
    requires forall p | p in aggregates0 :: aggregates0[p].Value() == values0[p]
    ensures StoredUnderId(aggregates)
    ensures forall p | p in aggregates :: (p in aggregates0 && aggregates[p] == aggregates0[p]) || fresh(aggregates[p])
    ensures order == if r.playerId in aggregates0 then order0 else order0 + [r.playerId]
    ensures r.playerId in aggregates && agg == aggregates[r.playerId] && agg.Value() == StoredOrNew(values0, r)
    ensures aggregates.Keys == values0.Keys + {r.playerId}
    ensures forall p | p in aggregates && p != r.playerId :: aggregates[p].Value() == values0[p]
  {
    aggregates, order := aggregates0, order0;
    if r.playerId in aggregates {
      agg := aggregates[r.playerId];
    } else {
      agg := new PlayerAggregate(r.playerId, r.gamerTag, LocationState(r));
      aggregates := aggregates[r.playerId := agg];
      order := order + [r.playerId];
    }
  }

  /** The loop over the aggregates in first-seen order: a row for each one with a decided set. */
  method CollectRows(aggregates: map<int, PlayerAggregate>, order: seq<int>, assumeTargetMain: bool,
                     ghost values: seq<Aggregate>)
    returns (rows: seq<Row>)
    requires |values| == |order| && forall i | 0 <= i < |values| :: values[i].stateCounts.Valid()
    requires forall i | 0 <= i < |order| :: order[i] in aggregates && aggregates[order[i]].Value() == values[i]
    ensures rows == RowsOf(values, assumeTargetMain)
  {
    rows := [];
    for k := 0 to |order|
      invariant rows == RowsOf(values[..k], assumeTargetMain)
    {
      var value := aggregates[order[k]].Value();
      assert values[..k + 1][..k] == values[..k];
      if value.setsPlayed != 0 {
        rows := rows + [Finalize(value, assumeTargetMain)];
      }
    }
    assert values[..|order|] == values;
  }
}
