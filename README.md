# Smash character competency: a verified model of the analytics core

This project models the analytics core of a tool that rates Super Smash Bros.
players from start.gg tournament data. It covers three Python modules.

- `smash_data.py` joins one event's seeds, standings and sets into one
  `PlayerEventResult` per singles entrant, with a `SetRecord` per set seen
  from that player's side. It also holds the location fallback and the singles
  test.
- `metrics.py` folds those results into one mutable `PlayerAggregate` per
  player. It then finalises one row per player with at least one set of known
  outcome and sorts the rows by weighted win rate, highest first.
- `smash_analysis.py` computes a player's win rate over raw set payloads and
  their main character, which is the most selected character, the first
  counted among ties. It also builds the filtered character report.

The Dafny modules follow the same structure.

| module | file | models |
|---|---|---|
| `Wrappers` | `wrappers.dfy` | `Option`, and filtering or mapping a sequence |
| `Text` | `text.dfy` | `lower`, `upper`, `strip`, `str(int)`, `int(float)` |
| `Dicts` | `dicts.dfy` | Python's insertion-ordered `dict`, counting with `d.get(k, 0) + 1`, `sum(d.values())`, `max(d, key=d.get)` |
| `Payloads` | `payloads.dfy` | the JSON payloads, as datatypes with optional fields |
| `SmashData` | `smash_data.dfy` | the specification of `build_player_event_results`, and its properties |
| `SmashDataBuild` | `smash_data.dfy` | the loops of `build_player_event_results`, proved to compute that specification |
| `Metrics` | `metrics.dfy` | the specification of `compute_player_metrics`, and its properties |
| `MetricsOrder` | `metrics_order.dfy` | what folding a result adds to an aggregate, and that two results add the same in either order |
| `MetricsEngine` | `metrics_engine.dfy` | `PlayerAggregate` as a class with mutable fields, and the loops, proved to compute that specification |
| `SmashAnalysis` | `smash_analysis.dfy` | the win rate, the main character and the report, as functions and as loops |
| `AnalysisExample` | `analysis_example.dfy` | the report for the fixture of `tests/test_smash_analytics.py` |

Some conventions hold across the model.

- A Python `dict` keeps its insertion order, and that order decides visible
  results: the order of the rows, the tie-break of `max`, and which entrant's
  info is kept. It is modelled as a key sequence beside a map.
- Python truthiness (`if x:`, `x or y`) is written out. `IntTruthy` means
  present and non-zero, and `TextTruthy` means present and non-empty.
- An entrant key `str(entrant.get("id"))` is modelled as the optional id
  itself. `str` is injective on integers, and `"None"` is the text of no
  integer, so comparisons of keys agree.
- Floats are exact reals. `math.log2` and `math.exp` are a parameter
  (`Transcendentals`), and the current time is the parameter `nowTs`.

## Model

| member | source | states |
|---|---|---|
| `Dicts.Dict.Put` | metrics.py:112 | an assigned key gets the value; an existing key keeps its position, a new key goes last |
| `Dicts.Dict.Values` | metrics.py:166 | the values come in key-insertion order, one per key |
| `Dicts.Increment` | metrics.py:134 | `d[k] = d.get(k, 0) + 1`, keeping the dictionary well formed; `IncrementSum` and `TallySnoc` state what it adds |
| `Dicts.TallyOf` | smash_analysis.py:58 | counting items one by one into an empty dictionary; `TallyCounts` and `TallyKeysInFirstSeenOrder` state what it holds |
| `Dicts.SumValues` | metrics.py:184 | `sum(d.values())`; `IncrementSum`, `SumOverAtLeastOne` and `SumOverAtLeastTwo` bound it |
| `Dicts.TallySnoc` | smash_analysis.py:58 | counting one more item is one increment of the tally of the items before it |
| `Dicts.TallyCounts` | smash_analysis.py:58 | the tally holds exactly the items seen, each mapped to its number of occurrences |
| `Dicts.IncrementSum` | metrics.py:134 | every increment adds exactly one to `sum(d.values())` |
| `Dicts.SumOverAtLeastOne` | metrics.py:184-193 | no single count exceeds the total of all counts |
| `Dicts.SumOverAtLeastTwo` | metrics.py:184-194 | two distinct keys' counts together never exceed the total, so at most one key can hold a strict majority |
| `Dicts.FirstMaxIndex` | metrics.py:188-191 | the index picked has a count no other key exceeds, and every earlier key has a strictly smaller count |
| `Dicts.FirstMaxKey` | smash_analysis.py:61 | `max(d, key=d.get)` returns a stored key whose count is the largest, and every key stored before it has a strictly smaller count |
| `Dicts.TallyKeysInFirstSeenOrder` | smash_analysis.py:58 | a tally lists its keys in the order of their first occurrence |
| `Dicts.TallyKeysSnoc` | smash_analysis.py:58 | counting an item keeps the key order and adds the item last when it is new |
| `Dicts.MostFrequentFirstSeen` | smash_analysis.py:57-61 | the tally is empty exactly when there are no items; otherwise `max` picks an item no other occurs more often than, and the earliest seen among ties |
| `Text.UpperHasNoLowerCase` | metrics.py:90 | `upper()` keeps the length and leaves no lower-case letter |
| `Text.StripStartIsSuffix` | metrics.py:90 | stripping the start leaves a suffix that starts with a non-space |
| `Text.StripEndIsPrefix` | metrics.py:90 | stripping the end leaves a prefix that ends with a non-space |
| `Text.StripTrimsBothEnds` | metrics.py:90 | `strip()` is no longer than its input and has no white space at either end |
| `Text.UpperIdempotent` | metrics.py:90 | upper-casing twice is upper-casing once |
| `Text.LowerOfUpper` | metrics.py:78 | lower-casing ignores any earlier upper-casing |
| `Text.StripOfTrimmed` | metrics.py:90 | a string with no white space at either end is its own `strip()` |
| `Text.Lower` | metrics.py:78 | `str.lower()` on ASCII, letter by letter; `LowerOfUpper` states that it ignores an earlier `upper()` |
| `Text.Upper` | metrics.py:90 | `str.upper()` on ASCII, letter by letter; `UpperHasNoLowerCase` and `UpperIdempotent` state its properties |
| `Text.Strip` | metrics.py:90 | `str.strip()`; `StripTrimsBothEnds` and `StripOfTrimmed` state its properties |
| `Text.IntText` | smash_analysis.py:50-52 | `str(n)` for an integer: a minus sign for a negative number, then the decimal digits |
| `Text.Truncate` | smash_analysis.py:52 | `int(x)` for a float: truncation toward zero |
| `Payloads.IntTruthy` | smash_data.py:339 | `bool(x)` for an optional integer: present and non-zero |
| `Payloads.TextTruthy` | smash_data.py:447 | `bool(s)` for an optional string: present and non-empty |
| `Payloads.TextOr` | smash_data.py:384 | `a or b` for optional strings; `GamerTag` and `ResultLocation` state the chains built from it |
| `Payloads.LocationOf` | smash_data.py:289-297 | `(user or {}).get("location") or {}`; `ResultLocation` states the fallback built from it |
| `Payloads.EntrantOf` | smash_data.py:331 | `x.get("entrant") or {}`: an absent entrant reads as one with no id and no participants; `Details` and `PlayerEntrantIdsMembers` state what the slots give through it |
| `Payloads.PlayerOf` | smash_data.py:337 | `participant.get("player") or {}`: an absent player reads as one with no id, tag or user; `GamerTag` and `PlayerIdsAligned` state what the participants give through it |
| `Payloads.StateOf` | metrics.py:82-84 | `location.get("state")` |
| `SmashData.ResultLocation` | smash_data.py:288-297 | the player's user location when it is non-empty, otherwise the participant's user location; empty exactly when both are |
| `SmashData.PlayerUserLocation` | smash_data.py:291-294 | the location on the player's own user, `{}` when the player, user or location is missing; `ResultLocation` states it is used first when non-empty |
| `SmashData.ParticipantUserLocation` | smash_data.py:296-297 | the location on the participant's user, `{}` when missing; `ResultLocation` states it is the fallback |
| `SmashData.IsSinglesEvent` | smash_data.py:465-476 | not singles exactly when a given minimum or maximum entrant size is not 1, or a truthy team roster size is not 1 |
| `SmashData.NamesOfExactly` | smash_data.py:300-316 | the names extracted are exactly the non-empty character names of this entrant's character selections, and there are at most as many as selections |
| `SmashData.NamesOfAppend` | smash_data.py:305-315 | each selection adds at most its own name, at the end |
| `SmashData.SelectionName` | smash_data.py:306-315 | the name one selection contributes for an entrant; `NamesOfExactly` states when it is one |
| `SmashData.NamesOf` | smash_data.py:304-315 | the names the selections contribute, in order; `NamesOfExactly` and `NamesOfAppend` state what they are |
| `SmashData.IsCharacterSelection` | smash_data.py:306-308 | a missing, empty or `CHARACTER` (any case) selection type counts; `NamesOfExactly` and `SelectionNameFilters` state the filter, which smash_analysis.py:39-41 shares |
| `SmashData.EntrantCharacters` | smash_data.py:300-316 | `_extract_characters_for_entrant`: the names of all games' selections, game by game; `ExtractCharactersForEntrant` is the loop proved to compute it |
| `SmashData.SeedsMap` | smash_data.py:330-333 | `seeds_map`; `SeedsMapListed` and `SeedsMapLastWriteWins` state what it holds |
| `SmashData.StandingsMap` | smash_data.py:347-350 | `standings_map`; `StandingsMapListed` and `StandingsMapLastWriteWins` state what it holds |
| `SmashData.Details` | smash_data.py:372-398 | one detail per slot, in slot order: detail `i` holds slot `i`'s entrant key and the ids and tags of that entrant's participants |
| `SmashData.PlayerIdsAligned` | smash_data.py:379-384 | a slot's ids are exactly its participants' truthy player ids, never 0, and its tags line up with them one for one: the tag at position `k` is `gamerTag or participant gamerTag` of the participant whose id is at position `k` |
| `SmashData.OpponentFrom` | smash_data.py:406-409 | the opponent is the first other slot with a player; none exactly when no other slot has one |
| `SmashData.Opponent` | smash_data.py:406-409 | `next(...)`: the first slot other than `i` with players, and none exactly when every other slot has no players |
| `SmashData.TruthyTags` | smash_data.py:427 | at most as many tags, each present and non-empty, and exactly the truthy tags of the slot |
| `SmashData.WonFor` | smash_data.py:417-420 | `won` is unknown exactly when the set has no winner, and true exactly when the winner is this entrant |
| `SmashData.RecordFor` | smash_data.py:400-433 | a slot yields a record exactly when it has one player and an opponent; the record belongs to that player and carries that `won`, the set id, the opponent slot's entrant key, player ids and truthy tags, the seed and placement the maps hold for the opponent's entrant, and this entrant's characters |
| `SmashData.RecordsFromStep` | smash_data.py:400-434 | each slot appends its record, if any, after those of the earlier slots |
| `SmashData.GroupStep` | smash_data.py:434 | a record joins the end of its player's group and changes no other group |
| `SmashData.RecordsFrom` | smash_data.py:400-434 | the records of the first `n` slots; `RecordsFromStep` and `RecordsFromOrigin` state order and origin |
| `SmashData.RecordsOfSet` | smash_data.py:368-434 | one set's records, none below two slots; `RecordsOfSetOrigin` states it |
| `SmashData.AllRecords` | smash_data.py:367-434 | the records of all sets in order; `AllRecordsOrigin` states their origin |
| `SmashData.SetsOf` | smash_data.py:445-458 | `sets_by_player[pid]`, empty for an absent player; `GroupMembers` states it is the player's records in emission order |
| `SmashData.Group` | smash_data.py:365-434 | `sets_by_player`; `GroupStep` and `GroupMembers` state what each group holds |
| `SmashData.GamerTag` | smash_data.py:447 | the player's tag when truthy, else the participant's tag when truthy, else `Unknown`; never empty |
| `SmashData.TournamentMeta` | smash_data.py:437 | `event.get("_tournament") or {}`; `ResultFor` states every result carries it |
| `SmashData.ResultFor` | smash_data.py:438-460 | a result exists exactly when the player has an id and either has records or the entrant was seeded; it carries that player id, the player's whole group of records, the entrant key, a non-empty tag, and the entrant's seed and placement |
| `SmashData.InfoFromSeeds` | smash_data.py:330-345 | the seeds pass keeps the player-info dictionary well formed; `FirstWriterWinsAcrossPasses` says what it keeps |
| `SmashData.InfoFromStandings` | smash_data.py:347-363 | the standings pass keeps the dictionary well formed; `StandingsExtend` says it never overwrites |
| `SmashData.InfoFromParticipants` | smash_data.py:379-391 | one slot's participants keep the dictionary well formed; `ParticipantsExtend` says they never overwrite |
| `SmashData.InfoFromSlots` | smash_data.py:373-391 | one set's slots keep the dictionary well formed |
| `SmashData.InfoFromSets` | smash_data.py:367-391 | the sets pass keeps the dictionary well formed; `SetsExtend` says it never overwrites |
| `SmashData.AllInfo` | smash_data.py:330-391 | the three passes give a well-formed dictionary |
| `SmashData.SeedsMapLastWriteWins` | smash_data.py:330-333 | every listed entrant maps to the seed number of its last listing |
| `SmashData.SeedsMapListed` | smash_data.py:330-333 | the seed map holds exactly the listed entrants |
| `SmashData.StandingsMapListed` | smash_data.py:347-350 | the standing map holds exactly the listed entrants |
| `SmashData.StandingsMapLastWriteWins` | smash_data.py:347-350 | every listed entrant maps to the placement of its last listing |
| `SmashData.FirstWriterWinsAcrossPasses` | smash_data.py:339-391 | what the seeds pass stores, and then what the standings pass stores, survives unchanged and in place to the end |
| `SmashData.StandingsExtend` | smash_data.py:351-363 | the standings pass never overwrites or reorders stored info |
| `SmashData.ParticipantsExtend` | smash_data.py:385-391 | a slot's participants never overwrite or reorder stored info |
| `SmashData.SlotsExtend` | smash_data.py:373-391 | a set's slots never overwrite or reorder stored info |
| `SmashData.SetsExtend` | smash_data.py:367-391 | the sets pass never overwrites or reorders stored info |
| `SmashData.RecordsFromOrigin` | smash_data.py:400-434 | every record of a set's slots is the record of one of those slots |
| `SmashData.RecordsOfSetOrigin` | smash_data.py:368-433 | a set with fewer than two slots yields nothing; every record comes from a slot whose only player is the record's player, carries the set id and that entrant's characters, names another slot with players as opponent, and reads the opponent's seed and placement from the maps |
| `SmashData.AtMostOneWinnerPerSet` | smash_data.py:417-420 | two slots with different entrants never both get a record saying `won` |
| `SmashData.AllRecordsOrigin` | smash_data.py:367-434 | every record of the event comes from a set with at least two slots, from a slot whose only player is the record's player, with its opponent from the same set and the opponent's seed and placement from the maps |
| `SmashData.GroupMembers` | smash_data.py:365-434 | a player's group is exactly that player's records in emission order, as the filter `PlayerRecords` gives them |
| `SmashData.ResultsFromOrigin` | smash_data.py:438-460 | each result is the result of a stored entrant, and every stored entrant that yields a result is among them |
| `SmashData.ResultsFromStep` | smash_data.py:438-460 | each stored entrant appends its result, if any, after those of the earlier entrants |
| `SmashData.ResultsFromDistinct` | smash_data.py:438-460 | distinct stored keys give results for distinct entrants |
| `SmashData.ResultsFrom` | smash_data.py:436-462 | the results of the first `n` stored entrants; `ResultsFromOrigin`, `ResultsFromStep` and `ResultsFromDistinct` state soundness, completeness, order and distinctness |
| `SmashData.PlayerEventResultsJoin` | smash_data.py:319-462 | there is a result for exactly the stored entrants whose player has records or that were seeded, none twice; each carries the stored player's id, a non-empty tag, the entrant's seed and placement, and all its player's records in emission order, each from a single-player slot of that player with the opponent's seed and placement read from the maps |
| `SmashData.PlayerEventResults` | smash_data.py:319-462 | `build_player_event_results` as a function; `PlayerEventResultsJoin` states its properties and `BuildPlayerEventResults` is the loop proved to compute it |
| `SmashDataBuild.ExtractCharactersForEntrant` | smash_data.py:300-316 | the loops return exactly the characters the entrant picked in the set |
| `SmashDataBuild.AppendGameCharacters` | smash_data.py:305-315 | the loop over one game's selections extends the names found so far by that game's names |
| `SmashDataBuild.BuildPlayerEventResults` | smash_data.py:319-462 | the method returns the specified results |
| `SmashDataBuild.SeedsPass` | smash_data.py:330-345 | the loop builds the specified seed map and player info |
| `SmashDataBuild.StandingsPass` | smash_data.py:347-363 | the loop builds the specified standings map and player info |
| `SmashDataBuild.SetsPass` | smash_data.py:365-434 | the loop groups the event's records by player and stores the specified player info |
| `SmashDataBuild.CollectResults` | smash_data.py:436-462 | the loop returns the results of the stored entrants, in storage order |
| `SmashDataBuild.SlotDetails` | smash_data.py:372-398 | the loop returns each slot's details and stores the specified player info |
| `SmashDataBuild.ParticipantDetails` | smash_data.py:379-391 | the loop returns the ids and tags of participants with a truthy player id, and stores the first new one |
| `SmashDataBuild.AddSetRecords` | smash_data.py:400-434 | the loop adds the set's records to their players' groups |
| `SmashDataBuild.AddSlotRecord` | smash_data.py:400-434 | one turn of the loop adds slot `j`'s record, if any, to its player's group |
| `SmashDataBuild.AddRecordStep` | smash_data.py:434 | slot `j` changes the grouping only by appending its record to its own player's group |
| `SmashDataBuild.SlotRecord` | smash_data.py:401-433 | the loop body builds the specified record of slot `j` |
| `Metrics.EventWeight` | metrics.py:55-65 | the weight is at least 0.1, at least size times recency decay, and equal to one of the two |
| `Metrics.SizeWeight` | metrics.py:60-61 | `log2(num_entrants + 1) or 1.0` is never zero |
| `Metrics.RecencyDays` | metrics.py:62-63 | the age in days of the event; `RecencyNeverNegative` states it is never negative and zero for an unknown or future start |
| `Metrics.RecencyNeverNegative` | metrics.py:62-63 | recency is never negative, and is zero for an event that starts now or later or whose start is unknown |
| `Metrics.UnknownEventWeighsOne` | metrics.py:60-65 | with the true `log2` and `exp`, an event of unknown size and start weighs 1 |
| `Metrics.OpponentStrength` | metrics.py:68-74 | a strength exists exactly when the seed or the placement is truthy; it is `1/seed` first, else `1/placement` |
| `Metrics.OpponentStrengthInUnit` | metrics.py:68-74 | for non-negative seeds and placements the strength lies in (0, 1], and is 1 for the top seed |
| `Metrics.UsesTargetCharacter` | metrics.py:77-79 | true exactly when some character equals the target, ignoring case |
| `Metrics.TargetMatchIgnoresCase` | metrics.py:77-79 | upper-casing the target does not change the answer |
| `Metrics.NormalizeState` | metrics.py:87-91 | none exactly for a missing, empty or blank state; otherwise stripped and upper-cased, in normal form |
| `Metrics.NormalizeStateIdempotent` | metrics.py:87-91 | normalising a normalised state changes nothing |
| `Metrics.LocationState` | metrics.py:82-84 | `_location_state`: the `state` of the result's location; `ResultLocation` states the fallback, and `NewAggregate` stores it |
| `Metrics.StateKey` | metrics.py:129-134 | the tally key: never empty, the normalised state when it is not blank, `UNKNOWN` otherwise |
| `Metrics.NewAggregate` | metrics.py:106-111 | a fresh aggregate keeps the counter invariant and has no event and no set |
| `Metrics.AddEvent` | metrics.py:114-134 | the per-event updates of one result; `AddEventConsistent` and `MetricsOrder.AddEventAdds` state what they keep and add |
| `Metrics.AddSet` | metrics.py:136-163 | one set's updates, none for an unknown outcome; `AddSetConsistent`, `AddSetWeight` and `MetricsOrder.AddSetAdds` state them |
| `Metrics.AddResult` | metrics.py:114-163 | one result's updates: its event, then its sets in order; `AddResultConsistent` and `MetricsOrder.AddResultAdds` state them |
| `Metrics.AddEventConsistent` | metrics.py:114-134 | a result's event updates keep the counter invariant |
| `Metrics.AddSetConsistent` | metrics.py:136-163 | a set's updates keep the counter invariant when the weight is at least the floor |
| `Metrics.AddSetsConsistent` | metrics.py:136-163 | all of a result's sets keep the invariant |
| `Metrics.AddResultConsistent` | metrics.py:114-163 | every result keeps the invariant, whatever it holds |
| `Metrics.Decided` | metrics.py:136-138 | keeps exactly the sets whose outcome is known |
| `Metrics.UndecidedSetsIgnored` | metrics.py:136-138 | a set of unknown outcome changes nothing in the aggregate |
| `Metrics.AddSetsCounts` | metrics.py:139-141 | a result's sets add one to `sets_played` per decided set and one to `wins` per won set |
| `Metrics.AddSetsWeights` | metrics.py:140-143 | every decided set adds the event weight to `weight_sum`, and every won set to `weighted_wins` |
| `Metrics.AddSetWeight` | metrics.py:140-143 | one set adds the weight to `weight_sum` when decided, and to `weighted_wins` when won |
| `Metrics.AddSetsKeepEventPart` | metrics.py:136-163 | sets never change the player's identity or the per-event fields |
| `Metrics.VsHigherSeed` | metrics.py:149-153 | both seeds known and the opponent's lower; `AddSetsUpsets` states what it counts |
| `Metrics.AddSetsUpsets` | metrics.py:149-156 | `sets_vs_higher_seed` counts the decided sets against a better-seeded opponent, `wins_vs_higher_seed` those won, never more |
| `Metrics.AddSets` | metrics.py:136-163 | the sets of one result in order; `AddSetsCounts`, `AddSetsWeights`, `AddSetsUpsets`, `AddSetsKeepEventPart` and `UndecidedSetsIgnored` state what they add |
| `Metrics.FoldStep` | metrics.py:103-163 | one turn of the loop keeps the aggregates dictionary well formed |
| `Metrics.Fold` | metrics.py:100-163 | the loop over results yields a well-formed aggregates dictionary |
| `Metrics.FoldMembers` | metrics.py:103-112 | there is an aggregate for exactly the players with a result, and it carries that player's id |
| `Metrics.FoldStepConsistent` | metrics.py:103-163 | one turn of the loop keeps every aggregate's invariant |
| `Metrics.FoldConsistent` | metrics.py:100-163 | every aggregate the loop builds keeps the invariant |
| `Metrics.ConsistentTallies` | metrics.py:129-134 | every aggregate's state tally is well formed |
| `Metrics.FoldCounts` | metrics.py:114-141 | each aggregate counts exactly its player's results, decided sets and won sets |
| `Metrics.EventsZeroNoSets` | metrics.py:103-141 | a player with no result has no decided and no won set |
| `Metrics.Max` | metrics.py:183 | `max(xs)` is defined exactly for a non-empty list, and is an element no other element exceeds |
| `Metrics.InferState` | metrics.py:184-196 | a state is inferred exactly when a confidence is |
| `Metrics.MajorityShare` | metrics.py:193-194 | `count / total > 0.5` exactly when `2 * count > total` |
| `Metrics.InferStateMajority` | metrics.py:184-196 | a state is inferred exactly when it is not `UNKNOWN` and holds a strict majority of the counted events; the confidence is its share, in (0.5, 1] |
| `Metrics.HomeStateRule` | metrics.py:198-203 | the explicit state, normalised, wins with confidence 1; otherwise the inferred state with its share; `home_state_inferred` exactly when no explicit but an inferred state |
| `Metrics.FinalizeAll` | metrics.py:236-264 | one row per aggregate |
| `Metrics.Finalize` | metrics.py:170-264 | the row of one aggregate; `FinalizeBounded`, `FinalizeCharacterFields`, `AssumeMainOverride` and `HomeStateRule` state its fields |
| `Metrics.DecidedTallies` | metrics.py:166-168 | every aggregate kept has a decided set and a well-formed state tally |
| `Metrics.DecidedValues` | metrics.py:166-168 | picking aggregates by key and picking among the values in key order agree |
| `Metrics.RowsOfDecided` | metrics.py:166-168 | skipping players without a decided set while finalising is finalising the aggregates kept |
| `Metrics.RowsOfValues` | metrics.py:166-168 | the rows built from `aggregates.values()` are the specified rows |
| `Metrics.InsertPermutes` | metrics.py:268 | inserting a row adds exactly that row |
| `Metrics.InsertSorted` | metrics.py:268 | inserting into sorted rows keeps them sorted |
| `Metrics.RanksAfterLowerRate` | metrics.py:268 | a row the first row does not outrank outranks every row |
| `Metrics.SortRowsSortsAndPermutes` | metrics.py:266-269 | the sorted rows reorder the rows, with the highest weighted win rate first and missing rates last |
| `Metrics.SortRowsPermutes` | metrics.py:268 | sorting neither loses nor adds rows |
| `Metrics.SortRowsSorts` | metrics.py:268 | sorting orders the rows by weighted win rate, descending |
| `Metrics.SortRows` | metrics.py:266-269 | `sort_values("weighted_win_rate", ascending=False)`; `SortRowsSortsAndPermutes` and `SortRowsDistinct` state its properties |
| `Metrics.FractionInUnit` | metrics.py:170-173 | a part over a positive whole lies in [0, 1] |
| `Metrics.RatioInUnit` | metrics.py:170-173 | a guarded ratio of a part to its whole is undefined or in [0, 1] |
| `Metrics.Ratio` | metrics.py:170-173 | `num / den if den else None`: defined exactly when the denominator is non-zero, and then times it gives the numerator |
| `Metrics.Mean` | metrics.py:174-182 | `mean(xs) if xs else None`: defined exactly for a non-empty list, and then times the length gives the sum |
| `Metrics.FinalizeBounded` | metrics.py:170-232 | the row of a player with a decided set has both win rates defined and every rate in [0, 1] |
| `Metrics.FinalizeCharacterFields` | metrics.py:205-232 | without the override the character fields are the target's own: usage 0 and no win rate when the target was never used; the upset rate is undefined exactly without a better-seeded opponent |
| `Metrics.AssumeMainOverride` | metrics.py:218-226 | `assume_target_main` changes a row only when the target was never used, and then only the four character fields, which copy the overall ones |
| `Metrics.DecidedOrigin` | metrics.py:166-168 | each aggregate kept is the one stored under its player |
| `Metrics.DecidedCoverAt` | metrics.py:166-168 | every aggregate with a decided set is kept |
| `Metrics.DecidedDistinct` | metrics.py:166-168 | the aggregates kept belong to distinct players |
| `Metrics.FinalizeAllAt` | metrics.py:236-264 | row `k` is the row of aggregate `k` |
| `Metrics.FinalizeAllIds` | metrics.py:238 | each row keeps its aggregate's player id |
| `Metrics.FinalizeAllAppend` | metrics.py:236 | one more aggregate appends its row |
| `Metrics.RowsFromOrigin` | metrics.py:165-168 | each row is the row of a stored aggregate with a decided set |
| `Metrics.PlayersOf` | metrics.py:238 | lists each row's player id, in row order |
| `Metrics.RowsFromCover` | metrics.py:165-168 | each aggregate with a decided set has a row |
| `Metrics.RowsFromDistinct` | metrics.py:165-168 | the rows belong to distinct players |
| `Metrics.RowsFrom` | metrics.py:165-168 | the rows of the first `n` aggregates, skipping undecided players; `RowsFromOrigin`, `RowsFromCover` and `RowsFromDistinct` state them |
| `Metrics.RowsOf` | metrics.py:165-168 | the same rows read off `aggregates.values()`; `RowsOfValues` and `RowsOfDecided` state the agreement |
| `Metrics.InsertDistinct` | metrics.py:268 | inserting a row for a new player keeps one row per player |
| `Metrics.SortRowsDistinct` | metrics.py:268 | sorting keeps one row per player |
| `Metrics.PlayerMetricsByValues` | metrics.py:165-270 | the output is the sorted rows built from the aggregates' values in order |
| `Metrics.PlayerMetrics` | metrics.py:94-270 | `compute_player_metrics` as a function; `PlayerMetricsPlayers` and `PlayerMetricsRowValues` state its properties |
| `Metrics.FoldFacts` | metrics.py:100-163 | the aggregates are consistent, stored under their own ids, and exist exactly for players with a result |
| `Metrics.PlayerMetricsPlayers` | metrics.py:94-270 | the rows are sorted by weighted win rate, one per player, and a player has a row exactly when they have a set of known outcome |
| `Metrics.PlayerMetricsRowValues` | metrics.py:94-270 | each row counts its player's results, decided sets and wins, has win rate wins over decided sets, and every rate in [0, 1] |
| `Metrics.NoDecidedSetNoRows` | metrics.py:266-270 | the output is empty exactly when no player has a set of known outcome |
| `Metrics.PlayerMetricsOfOne` | metrics.py:94-270 | a single result with a decided set gives a single row, the row of its aggregate |
| `Metrics.AddSetsTwo` | metrics.py:136 | two sets are read in order |
| `Metrics.ExampleEvent` | tests/test_metrics.py:76-86 | the test's result records one event and a seed delta of 2, and no set yet |
| `Metrics.ExampleAggregate` | tests/test_metrics.py:46-88 | the test's aggregate has one event, two decided sets, one win, one upset win, and the target used on both sets, whatever the event weight |
| `Metrics.ExampleRowFields` | tests/test_metrics.py:88-100 | an aggregate with those counts gives win rate 0.5, weighted win rate 0.5, seed delta 2, character win rate 0.5, usage 1 and upset rate 1 |
| `Metrics.SinglePlayerExample` | tests/test_metrics.py:88-100 | the test's single result gives exactly the one row the test asserts |
| `Metrics.AssumedMainExample` | metrics.py:218-226 | with no character reported, the target's fields are empty unless the target is assumed to be the main; then they copy the overall ones |
| `MetricsOrder.AddEventAdds` | metrics.py:114-134 | one result's event adds one event, its tournament, its seed delta, size and state count, and moves the latest start to the later of the two, whatever the aggregate held |
| `MetricsOrder.AddSetAdds` | metrics.py:136-163 | one set adds its own counts, weights and strength, and nothing when its outcome is unknown |
| `MetricsOrder.AddSetsAdds` | metrics.py:136-163 | a result's sets add the sum of what each adds, and keep the player's identity and state |
| `MetricsOrder.AddResultAdds` | metrics.py:114-163 | one result adds its own delta, whatever the aggregate held, and keeps the identity and state |
| `MetricsOrder.PlusLaws` | metrics.py:114-163 | adding what results add does not depend on the order of two or on the grouping of three |
| `MetricsOrder.MergeComm` | metrics.py:134 | adding two state tallies does not depend on their order |
| `MetricsOrder.MergeAssoc` | metrics.py:134 | nor on the grouping of three |
| `MetricsOrder.AddResultsCommute` | metrics.py:103-163 | folding two results in either order gives the same counters, sums, tournaments, latest start, state tally and list contents, and keeps the identity and state of the aggregate |
| `MetricsEngine.PlayerAggregate.constructor` | metrics.py:23-52 | a new aggregate holds the identity and state given, every count zero and every list empty |
| `MetricsEngine.PlayerAggregate.RecordEvent` | metrics.py:114-134 | the per-event updates, in place, keeping the invariant |
| `MetricsEngine.PlayerAggregate.CountEvent` | metrics.py:114-120 | one more event, its tournament if named, and the seed delta when both seed and placement are known; nothing else changes |
| `MetricsEngine.PlayerAggregate.NoteEventSize` | metrics.py:123-128 | the latest start moves only forward, and a truthy size is appended; nothing else changes |
| `MetricsEngine.PlayerAggregate.RecordSet` | metrics.py:136-163 | a set's updates, in place, as specified |
| `MetricsEngine.PlayerAggregate.CountOutcome` | metrics.py:139-143 | one more set, one more win if won, and the event weight added to the matching sums |
| `MetricsEngine.PlayerAggregate.CountSeedGap` | metrics.py:149-156 | sets and wins against a better-seeded opponent are counted only when both seeds are known |
| `MetricsEngine.PlayerAggregate.CountCharacter` | metrics.py:158-163 | the target-character counts, as for the overall ones |
| `MetricsEngine.PlayerAggregate.RecordResult` | metrics.py:114-163 | one result's updates, in place, keeping the invariant |
| `MetricsEngine.EventUpdates` | metrics.py:114-134 | the three stages of event updates compose to the specified event update |
| `MetricsEngine.SetUpdates` | metrics.py:139-163 | the four stages of set updates compose to the specified set update |
| `MetricsEngine.ComputePlayerMetrics` | metrics.py:94-270 | the method over mutable aggregates returns the specified rows |
| `MetricsEngine.FoldResults` | metrics.py:100-163 | the loop leaves one object per player, stored under its id, holding the specified aggregate, in first-seen order |
| `MetricsEngine.RecordOne` | metrics.py:103-163 | one turn of the loop updates only the result's player's aggregate, creating it on first sight |
| `MetricsEngine.RecordInto` | metrics.py:114-163 | recording a result changes only its player's aggregate |
| `MetricsEngine.FoldNext` | metrics.py:103-163 | one more result stores its player's updated aggregate |
| `MetricsEngine.AggregateFor` | metrics.py:104-112 | returns the stored aggregate, or stores a fresh one last in order |
| `MetricsEngine.CollectRows` | metrics.py:165-264 | the loop over aggregates in order returns the specified rows |
| `SmashAnalysis.Wins` | smash_analysis.py:14 | no more wins than sets |
| `SmashAnalysis.WinsExtremes` | smash_analysis.py:14 | no win exactly when no set names the player as winner, and all wins exactly when every set does |
| `SmashAnalysis.WinsAppend` | smash_analysis.py:14 | counting wins over two lists is counting over each |
| `SmashAnalysis.WinRate` | smash_analysis.py:10-15 | 0.0 without sets, and always in [0, 1] |
| `SmashAnalysis.WinRateIsShare` | smash_analysis.py:14-15 | over a non-empty list, the rate times the number of sets is the number of wins |
| `SmashAnalysis.WinRateExtremes` | smash_analysis.py:12-15 | over a non-empty list, 1.0 exactly when every set was won and 0.0 exactly when none was |
| `SmashAnalysis.PlayerEntrantIdsMembers` | smash_analysis.py:26-34 | an id is collected exactly when it is non-zero and some slot's entrant has it and has the player |
| `SmashAnalysis.PlayerEntrantIds` | smash_analysis.py:26-34 | the player's truthy entrant ids in one set; `PlayerEntrantIdsMembers` states the membership rule |
| `SmashAnalysis.LookupKeys` | smash_analysis.py:50-52 | `str(selection_value)` is tried first; text gives that key alone, and a number adds exactly one more, `str(int(selection_value))` |
| `SmashAnalysis.FirstHitIsFirstHit` | smash_analysis.py:53-56 | no name exactly when every key misses; otherwise the name of the first key that hits |
| `SmashAnalysis.FirstHitIsFirst` | smash_analysis.py:53-56 | the first key that hits decides the lookup |
| `SmashAnalysis.FirstHit` | smash_analysis.py:53-56 | the key loop's result; `FirstHitIsFirstHit` states it is the first non-empty hit |
| `SmashAnalysis.SelectionNameFilters` | smash_analysis.py:39-57 | a name is counted only for a character selection of the player's entrant, and it is never empty; the character's own name wins over the lookup |
| `SmashAnalysis.SelectionName` | smash_analysis.py:39-57 | the name one selection counts for the player; `SelectionNameFilters` states when and which |
| `SmashAnalysis.SelectionNamesAppend` | smash_analysis.py:37-38 | the names of two runs of selections are the names of each |
| `SmashAnalysis.SelectionNamesNext` | smash_analysis.py:38-58 | one selection more adds the name it counts, if any |
| `SmashAnalysis.GameNamesNext` | smash_analysis.py:37-38 | one game more adds the names its selections count |
| `SmashAnalysis.SelectionNamesByPlayer` | smash_analysis.py:39-58 | every name counted is non-empty and comes from a character selection of the player's entrant |
| `SmashAnalysis.SelectionNames` | smash_analysis.py:38-58 | the names a list of selections counts, in order; `SelectionNamesAppend` and `SelectionNamesByPlayer` state them |
| `SmashAnalysis.SetNames` | smash_analysis.py:25-58 | the names one set counts; `SetWithoutPlayerCountsNothing` states the `continue` |
| `SmashAnalysis.CountedNames` | smash_analysis.py:25-58 | the names counted over all sets, in counting order; `MainCharacterIsMostCounted` states the pick over them |
| `SmashAnalysis.MainCharacterIsMostCounted` | smash_analysis.py:18-61 | `None` exactly when nothing was counted; otherwise a counted name no name was counted more often than, the earliest among ties |
| `SmashAnalysis.MainCharacter` | smash_analysis.py:18-61 | `extract_main_character` as a function; `MainCharacterIsMostCounted` states its result |
| `SmashAnalysis.SetWithoutPlayerCountsNothing` | smash_analysis.py:35-36 | a set in which the player has no entrant counts nothing |
| `SmashAnalysis.ExtractMainCharacter` | smash_analysis.py:18-61 | the loops return the specified main character |
| `SmashAnalysis.EntrantIdsOfPlayer` | smash_analysis.py:26-34 | the loops collect exactly the specified entrant ids |
| `SmashAnalysis.AddIfPlayer` | smash_analysis.py:29-34 | an entrant's truthy id is added exactly when one of its participants is the player |
| `SmashAnalysis.CountSet` | smash_analysis.py:37-58 | the loops over one set count the names its selections contribute |
| `SmashAnalysis.CountSelections` | smash_analysis.py:38-58 | the loop over one game counts the names its selections contribute |
| `SmashAnalysis.SelectionCharacter` | smash_analysis.py:39-56 | the loop body finds the specified name, if any |
| `SmashAnalysis.LookupName` | smash_analysis.py:53-56 | the lookup loop finds the name of the first key that hits |
| `SmashAnalysis.ReportRowsFiltered` | smash_analysis.py:85-106 | at most one row per record, every win rate in [0, 1], and every row matches the filter unless unmatched rows are wanted |
| `SmashAnalysis.ReportRowsAppend` | smash_analysis.py:85-106 | the rows of two lists of records are the rows of each, in order |
| `SmashAnalysis.ReportRowsOfOne` | smash_analysis.py:85-106 | a record gives its row exactly when kept, none without a truthy player id, and the row analyses all its sets with the player's main character |
| `SmashAnalysis.ReportRowsNext` | smash_analysis.py:85-106 | one record more appends its row, if it gives one |
| `SmashAnalysis.RowOf` | smash_analysis.py:90-106 | the row of a record whose player has a truthy id; `ReportRowsOfOne` states its fields |
| `SmashAnalysis.Kept` | smash_analysis.py:87-97 | a record gives a row when its player id is truthy and it matches the filter or unmatched rows are wanted |
| `SmashAnalysis.MatchesFilter` | smash_analysis.py:83-94 | the case-insensitive comparison of the main with the character asked for; `MatchesFilterIgnoresCase` states it |
| `SmashAnalysis.MatchesFilterIgnoresCase` | smash_analysis.py:83-94 | no character asked for matches every main; no main matches no named character; the case of the name asked for is irrelevant |
| `SmashAnalysis.RecordRow` | smash_analysis.py:86-106 | the row of one record, if kept; `ReportRowsOfOne` states it |
| `SmashAnalysis.ReportRows` | smash_analysis.py:85-106 | the rows of the records, in record order; `ReportRowsFiltered` and `ReportRowsOfOne` state their properties |
| `SmashAnalysis.GenerateReportRows` | smash_analysis.py:82-107 | the loop returns the specified rows, in record order |
| `SmashAnalysis.ReportRowFor` | smash_analysis.py:86-106 | the loop body builds the specified row, or none |
| `AnalysisExample.AliceEntrantIds` | tests/test_smash_analytics.py:64-85 | in each fixture set, Alice's only entrant is 100 |
| `AnalysisExample.MarthPickName` | tests/test_smash_analytics.py:89-96 | the fixture's selection counts Marth |
| `AnalysisExample.AliceSetNames` | tests/test_smash_analytics.py:86-98 | each fixture set counts Marth once |
| `AnalysisExample.AliceCountedNames` | tests/test_smash_analytics.py:60-139 | over both sets, Marth is counted twice |
| `AnalysisExample.AliceMain` | tests/test_smash_analytics.py:157 | Alice's main is Marth |
| `AnalysisExample.AliceWinRate` | tests/test_smash_analytics.py:159 | Alice's win rate is 0.5 |
| `AnalysisExample.AliceRow` | tests/test_smash_analytics.py:154-159 | Alice's record is kept for Marth, and her row is the asserted one |
| `AnalysisExample.AliceReport` | tests/test_smash_analytics.py:150-159 | the report for Marth is exactly Alice's row: main Marth, win rate 0.5, two sets analysed |

## Left out

- Network and I/O are not modelled: the start.gg client (`startgg_client.py`), the fetch and pagination functions of `smash_data.py`, `smash_analytics.py`, `api.py`, `run_report.py` and the `smashcc` package are not part of this model. Their outputs are parameters: the event bundle, the player results, and the report's records and character map.
- SmashAnalysis.GenerateReportRows: starts after `get_character_map` and `fetch_state_player_records`. It takes the records and the character map as parameters, and the pandas `DataFrame` is a sequence of rows.
- MetricsEngine.ComputePlayerMetrics: the current time is the parameter `nowTs`, because the clock cannot be modelled.
- Metrics.EventWeight: `math.log2` and `math.exp` are a parameter. The weight is proved to respect its 0.1 floor whatever they return, and the size and recency fallbacks are proved only with the true values at 1 and 0.
- Floating point is modelled as exact real arithmetic, with no rounding. `statistics.mean` is the exact sum over the count.
- Metrics.SortRows: pandas' default sort is an unstable quicksort, so the order of rows with equal weighted win rates is unspecified. The model sorts by insertion and claims only that the result is sorted and a permutation. `reset_index` has no counterpart.
- Text.Lower, Text.Upper and Text.Strip handle ASCII only. Python's Unicode case mapping and Unicode white space are not modelled.
- SmashAnalysis.RowOf: when a player's user has a `location` key whose value is `null`, the Python `Region` expression raises `AttributeError`. The model gives no region instead.
- SmashAnalysis.LookupKeys: the text of `str(float)` is carried in the payload with the float, because Python's shortest-repr float formatting is not modelled. `str(int(x))` is modelled as truncation toward zero.
- Metrics.Fold: the aggregate takes `gamer_tag` and `state` from a player's first result (metrics.py:104-111), so the order of the results can change a player's row: the identity and the explicit home state. `MetricsOrder.AddResultsCommute` proves that everything else an aggregate accumulates does not depend on the order, with the lists compared as multisets.
- SetNode.round is modelled as optional text. start.gg sends an integer, which `fullRoundText or round` can yield as `round_text`; the core never reads `round_text`.
- Entrant.participants cannot hold `null`, which `participants[0] or {}` tolerates; the core reads the first participant only when there is exactly one, and a `null` there is not modelled.
- Payload fields the core never reads are not modelled. A missing `character_lookup` is modelled as the empty map, which `if not char and character_lookup` treats the same way.
