/**
 * The report for one player, worked through: Alice (player 1000, entrant 100)
 * plays Marth in both of her sets, wins the first and loses the second to Bob
 * (player 2000, entrant 200).
 */
module AnalysisExample {
  import opened Wrappers
  import opened Text
  import opened Dicts
  import opened Payloads
  import opened SmashAnalysis

  const AliceLocation: Location := map["city" := Some("Atlanta"), "state" := Some("GA"), "country" := Some("US")]
  const Alice := Player(Some(1000), Some("Alice"), Some(User(Some(AliceLocation))))

  function Side(entrantId: int, playerId: int, tag: string): Entrant {
    Entrant(Some(entrantId), [Participant(None, None, Some(Player(Some(playerId), Some(tag), None)))])
  }

  /** Alice's entrant picks Marth in the set's only game. */
  const MarthPick := Selection(Some("Character"), None, Some(Entrant(Some(100), [Participant(None, None, Some(Player(Some(1000), None, None)))])),
                               Some(Character(Some("Marth"))))

  function AliceSet(id: int, winner: int): SetNode {
    SetNode(Some(id), Some(winner), [Slot(Some(Side(100, 1000, "Alice"))), Slot(Some(Side(200, 2000, "Bob")))],
            [Game([MarthPick])], None, None, None)
  }

  const Sets := [AliceSet(1, 1000), AliceSet(2, 2000)]
  const Lookup := map["1" := "Marth", "2" := "Fox"]
  const Record := PlayerRecord(Some(Alice), Sets, Some(Tournament(Some("TestT"), Some("GA"))),
                               Some(Event(Some(10), Some("Main Event"), None, None, None, None, None, None)))

  lemma AliceEntrantIds(id: int, winner: int)
    ensures PlayerEntrantIds(AliceSet(id, winner).slots, 1000) == {100}
  {
    var slots := AliceSet(id, winner).slots;
    assert slots[..1] == [slots[0]] && slots[..1][..0] == [];
    assert PlayerOf(slots[0].entrant.value.participants[0].player).id == Some(1000);
    assert HasPlayer(slots[0].entrant.value.participants, 1000);
  }

  lemma MarthPickName()
    ensures SelectionName(MarthPick, {100}, Lookup) == Some("Marth")
  {
    assert Upper("Character") == "CHARACTER";
  }

  lemma AliceSetNames(id: int, winner: int)
    ensures SetNames(AliceSet(id, winner), 1000, Lookup) == ["Marth"]
  {
    AliceEntrantIds(id, winner);
    MarthPickName();
    var games := AliceSet(id, winner).games;
    assert games[..0] == [];
    assert SmashData.AllSelections([]) == [];
    assert SmashData.AllSelections(games) == [MarthPick];
    assert [MarthPick][..0] == [];
    assert SelectionNames([], {100}, Lookup) == [];
  }

  lemma AliceCountedNames()
    ensures CountedNames(Sets, 1000, Lookup) == ["Marth", "Marth"]
  {
    AliceSetNames(1, 1000);
    AliceSetNames(2, 2000);
    assert Sets[..1] == [Sets[0]] && Sets[..1][..0] == [];
    assert CountedNames([Sets[0]], 1000, Lookup) == ["Marth"];
  }

  /** Alice's main is Marth. */
  lemma AliceMain()
    ensures MainCharacter(Sets, 1000, Lookup) == Some("Marth")
  {
    AliceCountedNames();
    MainCharacterIsMostCounted(Sets, 1000, Lookup);
  }

  /** Alice won one of her two sets. */
  lemma AliceWinRate()
    ensures WinRate(Sets, 1000) == 0.5
  {
    assert Sets[..1] == [Sets[0]] && Sets[..1][..0] == [];
    assert Wins(Sets, 1000) == 1;
  }

  /** Alice's row: her main is Marth, she won half of her two sets, and the row passes the filter for Marth. */
  lemma AliceReport()
    ensures ReportRows([Record], Some("Marth"), false, Lookup)
         == [ReportRow(Some("Alice"), Some("GA"), Some("Marth"), 0.5, 2, true, Some("TestT"), Some("Main Event"))]
  {
    AliceRow();
    ReportRowsOfOne(Record, Some("Marth"), false, Lookup);
  }

  lemma AliceRow()
    ensures Kept(Record, Some("Marth"), false, Lookup)
    ensures RowOf(Record, Some("Marth"), Lookup)
         == ReportRow(Some("Alice"), Some("GA"), Some("Marth"), 0.5, 2, true, Some("TestT"), Some("Main Event"))
  {
    AliceMain();
    AliceWinRate();
    assert StateOf(LocationOf(Alice.user)) == Some("GA");
  }
}
