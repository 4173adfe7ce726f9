/**
 * Three locations of the University of Sydney campus the game is played on
 * (`map_data`, game.py:56-309) with their exits, items, item metadata and
 * gates: the entrance, the Quadrangle and Fisher Library.  The rest of the
 * campus is not part of this excerpt, so exits may lead out of it.  Location
 * descriptions are only printed and are left out.  Two plays on the excerpt:
 * the guard turns a player without a student card away from the Quadrangle,
 * and the shortest game (west into Fisher Library, take the notes) is won.
 */
module Campus {
  import opened Wrappers
  import opened WorldMap
  import opened Progress
  import opened Commands
  import opened Text

  /** The gate of the entrance and the Quadrangle. */
  const Card := Some(AccessControl(["student_card"], GuardMessage))

  const GuardMessage :=
    "The security guard stops you: 'I'm sorry, you need a valid student ID to enter the university.'"

  const Entrance := Location(
    map["north" := "Quadrangle", "east" := "Wentworth Building", "west" := "Fisher Library"],
    ["student_card"],
    EntranceSpecial,
    Card)

  const EntranceSpecial := map[
    "student_card" := ItemInfo("Your University of Sydney student ID card with your name and student number.",
                               true, "Required for access to university facilities", Some(Access))]

  const Quadrangle := Location(
    map["north" := "Great Hall", "east" := "MacLaurin Hall", "south" := "University Entrance", "west" := "Fisher Library"],
    ["lecture_notes", "university_guide", "mysterious_note"],
    QuadrangleSpecial,
    Card)

  const QuadrangleSpecial := map[
    "lecture_notes" := ItemInfo("Some lecture notes from a previous class.",
                                false, "Contains useful academic information", Some(Info)),
    "mysterious_note" := ItemInfo("A torn piece of paper clinging to the sandstone wall. It seems to have been here for a while.",
                                  false, "Read the mysterious note", Some(Quest))]

  const FisherLibrary := Location(
    map["east" := "Quadrangle", "south" := "University Entrance", "north" := "Law Library"],
    ["COMP9001 notes", "textbook", "research_paper"],
    FisherSpecial,
    None)

  const FisherSpecial := map[
    "COMP9001 notes" := ItemInfo("The lost COMP9001 notes you've been searching for.",
                                 true, "Contains important course material", None)]

  /** The entrance, the Quadrangle and Fisher Library, as the campus has them. */
  function Excerpt(): (w: World)
    ensures Start in w && "Quadrangle" in w && "Fisher Library" in w
  {
    map["University Entrance" := Entrance, "Quadrangle" := Quadrangle, "Fisher Library" := FisherLibrary]
  }

  /** Without the student card the guard keeps the player out of the Quadrangle. */
  lemma GateRefuses()
    ensures GoStep(Excerpt(), NewState(), ["north"]) == Reply(AccessDenied, NewState())
  {
    assert Excerpt()[Start].exits["north"] == "Quadrangle";
    assert !CheckAccess(Excerpt()["Quadrangle"], []);
  }

  /** Typing `comp9001 notes` names the notes. */
  lemma NotesKey()
    ensures TakeKey(["comp9001", "notes"]) == "comp9001 notes"
    ensures ItemKey("COMP9001 notes") == "comp9001 notes"
  {
    assert JoinSpace(["comp9001", "notes"]) == "comp9001 notes";
    assert Underscores("comp9001 notes") == "comp9001 notes";
    assert Lower("comp9001 notes") == "comp9001 notes";
    assert Lower("COMP9001 notes") == "comp9001 notes";
  }

  /** From the entrance, west leads into Fisher Library, which has no gate. */
  lemma WestToLibrary()
    ensures GoStep(Excerpt(), NewState(), ["west"]) == Reply(Continue, Moved(NewState(), "Fisher Library"))
  {
    assert Excerpt()[Start].exits["west"] == "Fisher Library";
    assert CheckAccess(Excerpt()["Fisher Library"], []);
  }

  /** In Fisher Library, `take comp9001 notes` pockets the notes and wins. */
  lemma TakeNotes(s: StateData, now: int)
    requires s.location == "Fisher Library"
    ensures var t := TakeStep(Excerpt(), s, ["comp9001", "notes"], now);
            t.outcome == Win && t.state == Pocket(s, Notes, now).state
  {
    NotesKey();
    assert Excerpt()[s.location].items == FisherLibrary.items;
    assert FirstMatch(FisherLibrary.items, "comp9001 notes") == Some(0);
  }

  /**
   * Pocketing the notes empty-handed wins: they are all that is carried,
   * `FOUND_NOTES` is the only achievement, and 120 points are scored (20 for
   * the item and 100 for the award).
   */
  lemma NotesFromEmptyHands(s: StateData, now: int)
    requires s.inventory == [] && s.achievements == {}
    ensures var p := Pocket(s, Notes, now);
            && p.outcome == Win
            && p.state.inventory == [Notes]
            && p.state.achievements == {FoundNotes}
            && p.state.score == s.score + 120
  {
    var q := s.(inventory := s.inventory + [Notes], score := s.score + 20, itemsCollected := s.itemsCollected + 1);
    assert q.inventory == [Notes] && q.achievements == {};
    assert Pocket(s, Notes, now).state == Award(q, FoundNotes).(endTime := Some(now));
  }

  /**
   * The shortest game: from the entrance, west into Fisher Library, then
   * `take comp9001 notes` wins, with the notes carried, `FOUND_NOTES`
   * awarded and 130 points scored.
   */
  lemma ShortestGame(now: int)
    ensures var r := GoStep(Excerpt(), NewState(), ["west"]);
            && r == Reply(Continue, Moved(NewState(), "Fisher Library"))
            && var t := TakeStep(Excerpt(), r.state, ["comp9001", "notes"], now);
            && t.outcome == Win
            && t.state.inventory == ["COMP9001 notes"]
            && t.state.achievements == {FoundNotes}
            && t.state.score == 130
  {
    WestToLibrary();
    var s := Moved(NewState(), "Fisher Library");
    assert s.inventory == [] && s.achievements == {} && s.score == 10;
    TakeNotes(s, now);
    NotesFromEmptyHands(s, now);
  }
}
