/**
 * The order in which a player's results are folded into the aggregate: every
 * counter, every sum, the tournament set, the latest start, the state tally and
 * the lists taken as multisets come out the same in either order. The player's
 * identity and state are not among them: the aggregate keeps those of the first
 * result, so they do depend on the order.
 */
module MetricsOrder {
  import opened Wrappers
  import opened Dicts
  import opened Payloads
  import opened SmashData
  import opened Metrics

  /** What the results add per event: tournaments, events, the latest start and the state tally. */
  datatype EventTotals = EventTotals(tournaments: set<string>, eventsPlayed: nat, latest: Option<int>, stateCounts: map<string, nat>) {
    function Plus(o: EventTotals): EventTotals {
      EventTotals(tournaments + o.tournaments, eventsPlayed + o.eventsPlayed, Later(latest, o.latest), Merge(stateCounts, o.stateCounts))
    }
  }

  /** The three lists, as multisets. */
  datatype ListTotals = ListTotals(seedDeltas: multiset<real>, opponentStrengths: multiset<real>, eventSizes: multiset<int>) {
    function Plus(o: ListTotals): ListTotals {
      ListTotals(seedDeltas + o.seedDeltas, opponentStrengths + o.opponentStrengths, eventSizes + o.eventSizes)
    }
  }

  /** Sets and wins, counted and weighted. */
  datatype SetTotals = SetTotals(setsPlayed: nat, wins: nat, weightedWins: real, weightSum: real) {
    function Plus(o: SetTotals): SetTotals {
      SetTotals(setsPlayed + o.setsPlayed, wins + o.wins, weightedWins + o.weightedWins, weightSum + o.weightSum)
    }
  }

  /** Sets and wins against a better seed. */
  datatype UpsetTotals = UpsetTotals(setsVsHigherSeed: nat, winsVsHigherSeed: nat) {
    function Plus(o: UpsetTotals): UpsetTotals {
      UpsetTotals(setsVsHigherSeed + o.setsVsHigherSeed, winsVsHigherSeed + o.winsVsHigherSeed)
    }
  }

  /** Sets and wins with the target character, counted and weighted. */
  datatype CharacterTotals = CharacterTotals(characterSets: nat, characterWins: nat, characterWeightedWins: real, characterWeightSum: real) {
    function Plus(o: CharacterTotals): CharacterTotals {
      CharacterTotals(characterSets + o.characterSets, characterWins + o.characterWins,
                      characterWeightedWins + o.characterWeightedWins, characterWeightSum + o.characterWeightSum)
    }
  }

  /** What an aggregate has accumulated, without the order of its lists. */
  datatype Counters = Counters(events: EventTotals, lists: ListTotals, sets: SetTotals, upsets: UpsetTotals, character: CharacterTotals) {
    function Plus(o: Counters): Counters {
      Counters(events.Plus(o.events), lists.Plus(o.lists), sets.Plus(o.sets), upsets.Plus(o.upsets), character.Plus(o.character))
    }
  }

  function CountersOf(a: Aggregate): Counters {
    Counters(
      EventTotals(a.tournaments, a.eventsPlayed, Some(a.latestEventStart), a.stateCounts.entries),
      ListTotals(multiset(a.seedDeltas), multiset(a.opponentStrengths), multiset(a.eventSizes)),
      SetTotals(a.setsPlayed, a.wins, a.weightedWins, a.weightSum),
      UpsetTotals(a.setsVsHigherSeed, a.winsVsHigherSeed),
      CharacterTotals(a.characterSets, a.characterWins, a.characterWeightedWins, a.characterWeightSum))
  }

  // ----- adding counters together -----

  const NoEvents := EventTotals({}, 0, None, map[])
  const NoLists := ListTotals(multiset{}, multiset{}, multiset{})
  const NoSets := SetTotals(0, 0, 0.0, 0.0)
  const NoUpsets := UpsetTotals(0, 0)
  const NoCharacter := CharacterTotals(0, 0, 0.0, 0.0)
  const Zero := Counters(NoEvents, NoLists, NoSets, NoUpsets, NoCharacter)

  function Count(m: map<string, nat>, k: string): nat {
    if k in m then m[k] else 0
  }

  /** Two tallies added key by key. */
  function Merge(m: map<string, nat>, n: map<string, nat>): (r: map<string, nat>)
    ensures r.Keys == m.Keys + n.Keys
    ensures forall k :: Count(r, k) == Count(m, k) + Count(n, k)
  {
    map k | k in m.Keys + n.Keys :: Count(m, k) + Count(n, k)
  }

  /** The later of two optional starts. */
  function Later(x: Option<int>, y: Option<int>): (z: Option<int>)
    ensures z.None? <==> x.None? && y.None?
    ensures x.Some? ==> z.value >= x.value
    ensures y.Some? ==> z.value >= y.value
    ensures z == x || z == y
  {
    if x.None? then y
    else if y.None? then x
    else if y.value > x.value then y else x
  }

  lemma MergeZero(m: map<string, nat>)
    ensures Merge(m, map[]) == m
  {
    assert forall k | k in m :: Count(m, k) == m[k];
  }

  lemma MergeComm(m: map<string, nat>, n: map<string, nat>)
    ensures Merge(m, n) == Merge(n, m)
  {
    var r, s := Merge(m, n), Merge(n, m);
    assert forall k | k in r :: Count(r, k) == r[k] && Count(s, k) == s[k];
  }

  lemma MergeAssoc(m: map<string, nat>, n: map<string, nat>, p: map<string, nat>)
    ensures Merge(Merge(m, n), p) == Merge(m, Merge(n, p))
  {
    var r, s := Merge(Merge(m, n), p), Merge(m, Merge(n, p));
    assert forall k | k in r :: Count(r, k) == r[k] && Count(s, k) == s[k];
  }

  lemma LaterAssoc(x: Option<int>, y: Option<int>, z: Option<int>)
    ensures Later(Later(x, y), z) == Later(x, Later(y, z))
  {
  }

  lemma EventLaws(x: EventTotals, y: EventTotals, z: EventTotals)
    ensures x.Plus(y) == y.Plus(x)
    ensures x.Plus(y).Plus(z) == x.Plus(y.Plus(z))
  {
    MergeComm(x.stateCounts, y.stateCounts);
    MergeAssoc(x.stateCounts, y.stateCounts, z.stateCounts);
    LaterAssoc(x.latest, y.latest, z.latest);
  }

  lemma ListLaws(x: ListTotals, y: ListTotals, z: ListTotals)
    ensures x.Plus(y) == y.Plus(x)
    ensures x.Plus(y).Plus(z) == x.Plus(y.Plus(z))
  {
  }

  lemma SetLaws(x: SetTotals, y: SetTotals, z: SetTotals)
    ensures x.Plus(y) == y.Plus(x)
    ensures x.Plus(y).Plus(z) == x.Plus(y.Plus(z))
  {
  }

  lemma UpsetLaws(x: UpsetTotals, y: UpsetTotals, z: UpsetTotals)
    ensures x.Plus(y) == y.Plus(x)
    ensures x.Plus(y).Plus(z) == x.Plus(y.Plus(z))
  {
  }

  lemma CharacterLaws(x: CharacterTotals, y: CharacterTotals, z: CharacterTotals)
    ensures x.Plus(y) == y.Plus(x)
    ensures x.Plus(y).Plus(z) == x.Plus(y.Plus(z))
  {
  }

  lemma PlusZero(c: Counters)
    ensures c.Plus(Zero) == c
  {
    MergeZero(c.events.stateCounts);
  }

  /** Adding counters does not depend on the order of the two, nor on how three are grouped. */
  lemma PlusLaws(c: Counters, d: Counters, e: Counters)
    ensures c.Plus(d) == d.Plus(c)
    ensures c.Plus(d).Plus(e) == c.Plus(d.Plus(e))
  {
    EventLaws(c.events, d.events, e.events);
    ListLaws(c.lists, d.lists, e.lists);
    SetLaws(c.sets, d.sets, e.sets);
    UpsetLaws(c.upsets, d.upsets, e.upsets);
    CharacterLaws(c.character, d.character, e.character);
  }

  // ----- what a result adds -----

  /** What `AddEvent` adds for one result. */
  function EventDelta(r: PlayerEventResult): Counters {
    var startAt := r.event.startAt;
    var numEntrants := r.event.numEntrants;
    var state := r.tournament.addrState;
    Zero.(
      events := EventTotals(
        if TextTruthy(r.tournament.name) then {r.tournament.name.value} else {},
        1,
        if IntTruthy(startAt) then startAt else None,
        if TextTruthy(state) then map[StateKey(state) := 1] else map[]),
      lists := NoLists.(
        seedDeltas := if r.seedNum.Some? && r.placement.Some? then multiset{(r.seedNum.value - r.placement.value) as real}
                      else multiset{},
        eventSizes := if IntTruthy(numEntrants) then multiset{numEntrants.value} else multiset{}))
  }

  /** What `AddSet` adds for one set: nothing when its outcome is unknown. */
  function SetDelta(rec: SetRecord, seedNum: Option<int>, weight: real, target: string): Counters {
    if rec.won.None? then Zero
    else
      var won := rec.won.value;
      var strength := OpponentStrength(rec);
      var upset := VsHigherSeed(rec, seedNum);
      var uses := UsesTargetCharacter(rec.characters, target);
      Zero.(
        lists := NoLists.(opponentStrengths := if strength.Some? then multiset{strength.value} else multiset{}),
        sets := SetTotals(1, if won then 1 else 0, if won then weight else 0.0, weight),
        upsets := UpsetTotals(if upset then 1 else 0, if upset && won then 1 else 0),
        character := CharacterTotals(if uses then 1 else 0, if uses && won then 1 else 0,
                                     if uses && won then weight else 0.0, if uses then weight else 0.0))
  }

  function SetsDelta(sets: seq<SetRecord>, seedNum: Option<int>, weight: real, target: string): Counters
    decreases |sets|
  {
    if sets == [] then Zero
    else SetsDelta(sets[..|sets| - 1], seedNum, weight, target).Plus(SetDelta(sets[|sets| - 1], seedNum, weight, target))
  }

  /** What `AddResult` adds for one result: its event, then its sets. */
  function ResultDelta(r: PlayerEventResult, weight: real, target: string): Counters {
    EventDelta(r).Plus(SetsDelta(r.sets, r.seedNum, weight, target))
  }

  // ----- the updates add their deltas -----

  lemma IncrementMerges(d: Dict<string, nat>, k: string)
    ensures Increment(d, k).entries == Merge(d.entries, map[k := 1])
  {
    var r, s := Increment(d, k).entries, Merge(d.entries, map[k := 1]);
    assert forall x | x in s :: Count(s, x) == s[x];
    assert forall x | x in r :: x in s && r[x] == s[x];
  }

  lemma AddEventAdds(a: Aggregate, r: PlayerEventResult)
    ensures CountersOf(AddEvent(a, r)) == CountersOf(a).Plus(EventDelta(r))
  {
    AddEventAddsEvents(a, r);
    AddEventAddsLists(a, r);
    AddEventAddsNoSets(a, r);
  }

  lemma AddEventAddsEvents(a: Aggregate, r: PlayerEventResult)
    ensures CountersOf(AddEvent(a, r)).events == CountersOf(a).events.Plus(EventDelta(r).events)
  {
    if TextTruthy(r.tournament.addrState) {
      IncrementMerges(a.stateCounts, StateKey(r.tournament.addrState));
    } else {
      MergeZero(a.stateCounts.entries);
    }
  }

  lemma AddEventAddsLists(a: Aggregate, r: PlayerEventResult)
    ensures CountersOf(AddEvent(a, r)).lists == CountersOf(a).lists.Plus(EventDelta(r).lists)
  {
  }

  lemma AddEventAddsNoSets(a: Aggregate, r: PlayerEventResult)
    ensures var before, after, delta := CountersOf(a), CountersOf(AddEvent(a, r)), EventDelta(r);
      && after.sets == before.sets.Plus(delta.sets)
      && after.upsets == before.upsets.Plus(delta.upsets)
      && after.character == before.character.Plus(delta.character)
  {
  }

  lemma AddSetAdds(a: Aggregate, rec: SetRecord, seedNum: Option<int>, weight: real, target: string)
    ensures CountersOf(AddSet(a, rec, seedNum, weight, target)) == CountersOf(a).Plus(SetDelta(rec, seedNum, weight, target))
  {
    if rec.won.None? {
      PlusZero(CountersOf(a));
    } else {
      AddSetAddsEvents(a, rec, seedNum, weight, target);
      AddSetAddsLists(a, rec, seedNum, weight, target);
      AddSetAddsSets(a, rec, seedNum, weight, target);
      AddSetAddsUpsets(a, rec, seedNum, weight, target);
      AddSetAddsCharacter(a, rec, seedNum, weight, target);
    }
  }

  lemma AddSetAddsEvents(a: Aggregate, rec: SetRecord, seedNum: Option<int>, weight: real, target: string)
    requires rec.won.Some?
    ensures CountersOf(AddSet(a, rec, seedNum, weight, target)).events == CountersOf(a).events.Plus(SetDelta(rec, seedNum, weight, target).events)
  {
    MergeZero(a.stateCounts.entries);
  }

  lemma AddSetAddsLists(a: Aggregate, rec: SetRecord, seedNum: Option<int>, weight: real, target: string)
    requires rec.won.Some?
    ensures CountersOf(AddSet(a, rec, seedNum, weight, target)).lists == CountersOf(a).lists.Plus(SetDelta(rec, seedNum, weight, target).lists)
  {
  }

  lemma AddSetAddsSets(a: Aggregate, rec: SetRecord, seedNum: Option<int>, weight: real, target: string)
    requires rec.won.Some?
    ensures CountersOf(AddSet(a, rec, seedNum, weight, target)).sets == CountersOf(a).sets.Plus(SetDelta(rec, seedNum, weight, target).sets)
  {
  }

  lemma AddSetAddsUpsets(a: Aggregate, rec: SetRecord, seedNum: Option<int>, weight: real, target: string)
    requires rec.won.Some?
    ensures CountersOf(AddSet(a, rec, seedNum, weight, target)).upsets == CountersOf(a).upsets.Plus(SetDelta(rec, seedNum, weight, target).upsets)
  {
  }

  lemma AddSetAddsCharacter(a: Aggregate, rec: SetRecord, seedNum: Option<int>, weight: real, target: string)
    requires rec.won.Some?
    ensures CountersOf(AddSet(a, rec, seedNum, weight, target)).character == CountersOf(a).character.Plus(SetDelta(rec, seedNum, weight, target).character)
  {
  }

  lemma {:induction false} AddSetsAdds(a: Aggregate, sets: seq<SetRecord>, seedNum: Option<int>, weight: real, target: string)
    ensures CountersOf(AddSets(a, sets, seedNum, weight, target)) == CountersOf(a).Plus(SetsDelta(sets, seedNum, weight, target))
    ensures AddSets(a, sets, seedNum, weight, target).playerId == a.playerId
    ensures AddSets(a, sets, seedNum, weight, target).gamerTag == a.gamerTag
    ensures AddSets(a, sets, seedNum, weight, target).state == a.state
    decreases |sets|
  {
    if sets == [] {
      PlusZero(CountersOf(a));
    } else {
      var init, last := sets[..|sets| - 1], sets[|sets| - 1];
      var before := AddSets(a, init, seedNum, weight, target);
      AddSetsAdds(a, init, seedNum, weight, target);
      AddSetAdds(before, last, seedNum, weight, target);
      PlusLaws(CountersOf(a), SetsDelta(init, seedNum, weight, target), SetDelta(last, seedNum, weight, target));
    }
  }

  /** One result adds its own delta, whatever the aggregate held, and keeps the player's identity and state. */
  lemma AddResultAdds(a: Aggregate, r: PlayerEventResult, weight: real, target: string)
    ensures CountersOf(AddResult(a, r, weight, target)) == CountersOf(a).Plus(ResultDelta(r, weight, target))
    ensures AddResult(a, r, weight, target).playerId == a.playerId
    ensures AddResult(a, r, weight, target).gamerTag == a.gamerTag
    ensures AddResult(a, r, weight, target).state == a.state
  {
    AddEventAdds(a, r);
    AddSetsAdds(AddEvent(a, r), r.sets, r.seedNum, weight, target);
    PlusLaws(CountersOf(a), EventDelta(r), SetsDelta(r.sets, r.seedNum, weight, target));
  }

  /**
   * Two results folded in either order give the same counters, sums, tallies and
   * list contents, and the same identity and state: those of the aggregate they
   * were folded into.
   */
  lemma AddResultsCommute(a: Aggregate, r1: PlayerEventResult, w1: real, r2: PlayerEventResult, w2: real, target: string)
    ensures var a12 := AddResult(AddResult(a, r1, w1, target), r2, w2, target);
      var a21 := AddResult(AddResult(a, r2, w2, target), r1, w1, target);
      && CountersOf(a12) == CountersOf(a21)
      && a12.playerId == a21.playerId == a.playerId
      && a12.gamerTag == a21.gamerTag == a.gamerTag
      && a12.state == a21.state == a.state
  {
    var c, d1, d2 := CountersOf(a), ResultDelta(r1, w1, target), ResultDelta(r2, w2, target);
    AddResultAdds(a, r1, w1, target);
    AddResultAdds(AddResult(a, r1, w1, target), r2, w2, target);
    AddResultAdds(a, r2, w2, target);
    AddResultAdds(AddResult(a, r2, w2, target), r1, w1, target);
    PlusLaws(c, d1, d2);
    PlusLaws(c, d2, d1);
    PlusLaws(d1, d2, c);
  }
}
