/**
 * The player's progress as a value: the achievement tags and their string
 * names, the difficulty table, the hint texts, the fields of
 * `GameStateManager` (game.py:330-351), the save snapshot built by `to_dict`
 * and read back by `from_dict` (game.py:353-404), and the pure parts of the
 * state manager: the write-once award (game.py:406-410), the sweep run after
 * every command (game.py:412-431) and the four contextual achievements
 * (game.py:443-465).
 */
module Progress {
  import opened Wrappers

  // ---------------------------------------------------------------------
  // Achievements (`AchievementType`, game.py:30-45)

  datatype Achievement =
    | EnteredCampus | EnteredLibrary | FoundNotes | CollectedAllItems | VisitedAllLocations
    | CompletedUnderTime | NoHintsUsed | ExploredQuad | VisitedMuseum | AttendedLecture
    | EngineeringMaster | ScienceExplorer | TeachingPioneer | NobelPotential | SocialButterfly

  /** The enum member's `.value`, the string a snapshot stores. */
  function Name(a: Achievement): string {
    match a
    case EnteredCampus => "entered_campus"
    case EnteredLibrary => "entered_library"
    case FoundNotes => "found_notes"
    case CollectedAllItems => "collected_all_items"
    case VisitedAllLocations => "visited_all_locations"
    case CompletedUnderTime => "completed_under_time"
    case NoHintsUsed => "no_hints_used"
    case ExploredQuad => "explored_quad"
    case VisitedMuseum => "visited_museum"
    case AttendedLecture => "attended_lecture"
    case EngineeringMaster => "engineering_master"
    case ScienceExplorer => "science_explorer"
    case TeachingPioneer => "teaching_pioneer"
    case NobelPotential => "nobel_potential"
    case SocialButterfly => "social_butterfly"
  }

  /** `AchievementType(s)`: the member whose value is `s`, or nothing (Python raises `ValueError`). */
  function Parse(s: string): (r: Option<Achievement>)
    ensures r.Some? ==> Name(r.value) == s
    ensures r.None? ==> forall a :: Name(a) != s
  {
    if s == "entered_campus" then Some(EnteredCampus)
    else if s == "entered_library" then Some(EnteredLibrary)
    else if s == "found_notes" then Some(FoundNotes)
    else if s == "collected_all_items" then Some(CollectedAllItems)
    else if s == "visited_all_locations" then Some(VisitedAllLocations)
    else if s == "completed_under_time" then Some(CompletedUnderTime)
    else if s == "no_hints_used" then Some(NoHintsUsed)
    else if s == "explored_quad" then Some(ExploredQuad)
    else if s == "visited_museum" then Some(VisitedMuseum)
    else if s == "attended_lecture" then Some(AttendedLecture)
    else if s == "engineering_master" then Some(EngineeringMaster)
    else if s == "science_explorer" then Some(ScienceExplorer)
    else if s == "teaching_pioneer" then Some(TeachingPioneer)
    else if s == "nobel_potential" then Some(NobelPotential)
    else if s == "social_butterfly" then Some(SocialButterfly)
    else None
  }

  /** Every tag's name parses back to the tag. */
  lemma ParseName(a: Achievement)
    ensures Parse(Name(a)) == Some(a)
  {
    match a
    case EnteredCampus =>
    case EnteredLibrary =>
    case FoundNotes =>
    case CollectedAllItems =>
    case VisitedAllLocations =>
    case CompletedUnderTime =>
    case NoHintsUsed =>
    case ExploredQuad =>
    case VisitedMuseum =>
    case AttendedLecture =>
    case EngineeringMaster =>
    case ScienceExplorer =>
    case TeachingPioneer =>
    case NobelPotential =>
    case SocialButterfly =>
  }

  /** Every tag's name parses back to the tag, for all tags at once. */
  lemma ParseNames()
    ensures forall a :: Parse(Name(a)) == Some(a)
  {
    forall a ensures Parse(Name(a)) == Some(a) {
      ParseName(a);
    }
  }

  /** Distinct tags have distinct names. */
  lemma NameInjective(a: Achievement, b: Achievement)
    ensures Name(a) == Name(b) ==> a == b
  {
    ParseName(a);
    ParseName(b);
  }

  // ---------------------------------------------------------------------
  // Difficulty levels and hints

  /** One row of `DIFFICULTY_LEVELS`; the unused score multiplier is left out. */
  datatype Level = Level(timeLimit: int, hints: int)

  /** `DIFFICULTY_LEVELS[d]`, or nothing for a name the table lacks (Python raises `KeyError`). */
  function LevelOf(d: string): (r: Option<Level>)
    ensures r.Some? <==> d in {"easy", "normal", "hard"}
    ensures r.Some? ==> 0 <= r.value.timeLimit && 1 <= r.value.hints <= 3
  {
    if d == "easy" then Some(Level(0, 3))
    else if d == "normal" then Some(Level(600, 2))
    else if d == "hard" then Some(Level(300, 1))
    else None
  }

  /** `HintSystem.hints[i]`, or nothing for an index outside 1..3 (Python raises `KeyError`). */
  function HintText(i: int): (r: Option<string>)
    ensures r.Some? <==> 1 <= i <= 3
  {
    if i == 1 then Some(FirstHint)
    else if i == 2 then Some(SecondHint)
    else if i == 3 then Some(ThirdHint)
    else None
  }

  const FirstHint := "Some say a torn note still clings to the corner of the old sandstone wall in the Quadrangle — as if waiting to be read."
  const SecondHint := "Among shelves older than memory, what's forgotten may yet be found."
  const ThirdHint := "They say a student left some notes on a quiet desk in the Fisher Library... still waiting."

  /** The number of hints `HintSystem` holds. */
  const HintCount := 3

  /**
   * `advance_hint`: the selected hint moves on while there is a next one;
   * the flag says whether it moved.
   */
  function Advance(current: int): (r: (int, bool))
    ensures r.1 <==> current < HintCount
    ensures 1 <= current <= HintCount ==> 1 <= r.0 <= HintCount && HintText(r.0).Some?
  {
    if current < HintCount then (current + 1, true) else (current, false)
  }

  /** The hint selected after `k` calls of `advance_hint`. */
  function AdvanceTimes(current: int, k: nat): int
    decreases k
  {
    if k == 0 then current else AdvanceTimes(Advance(current).0, k - 1)
  }

  /**
   * From a hint in 1..3, advancing `k` times selects hint `min(current + k, 3)`:
   * the selection never leaves 1..3 and stops at the last hint.
   */
  lemma {:induction false} AdvanceStaysInRange(current: int, k: nat)
    requires 1 <= current <= HintCount
    ensures AdvanceTimes(current, k) == if current + k <= HintCount then current + k else HintCount
    decreases k
  {
    if k > 0 {
      AdvanceStaysInRange(Advance(current).0, k - 1);
    }
  }

  // ---------------------------------------------------------------------
  // The state

  /** The two fields of `HintSystem` that change. */
  datatype HintState = HintState(currentHint: int, noteUsed: int)

  /**
   * The fields of `GameStateManager`.  Times are whole seconds; `None` is
   * Python's `None`.
   */
  datatype StateData = StateData(
    location: string,
    inventory: seq<string>,
    gameStartTime: Option<int>,
    timeLimit: int,
    remainingHints: int,
    difficulty: string,
    requiredItems: seq<string>,
    visited: set<string>,
    score: int,
    achievements: set<Achievement>,
    puzzleSolved: bool,
    steps: int,
    itemsCollected: int,
    startTime: Option<int>,
    endTime: Option<int>,
    specialEvents: set<string>,
    questProgress: map<string, string>,
    hints: HintState,
    hasEnteredCampus: bool)

  /**
   * A fresh `GameStateManager()`: at the entrance, which is not yet counted
   * as visited, with nothing carried, no score and the first hint selected.
   */
  function NewState(): (s: StateData)
    ensures s.location == "University Entrance" && s.visited == {} && s.inventory == []
    ensures s.score == 0 && s.achievements == {} && s.hints == HintState(1, 0)
    ensures s.difficulty == "normal" && s.remainingHints == 0 && s.timeLimit == 0
  {
    StateData("University Entrance", [], None, 0, 0, "normal", [], {}, 0, {}, false, 0, 0,
              None, None, {}, map[], HintState(1, 0), false)
  }

  // ---------------------------------------------------------------------
  // Awards

  /**
   * `add_achievement`: the tag is added, and the score rises by 100 only
   * when the tag was not held before.  Nothing else changes.
   */
  function Award(s: StateData, a: Achievement): (r: StateData)
    ensures r.achievements == s.achievements + {a}
    ensures a !in s.achievements ==> r.score == s.score + 100
    ensures a in s.achievements ==> r == s
    ensures r.score - s.score == 100 * (|r.achievements| - |s.achievements|)
    ensures r == s.(achievements := r.achievements, score := r.score)
  {
    if a !in s.achievements then s.(achievements := s.achievements + {a}, score := s.score + 100) else s
  }

  /** One check of the sweep: the tag is awarded only when its condition holds. */
  function AwardIf(s: StateData, cond: bool, a: Achievement): (r: StateData)
    ensures r.achievements == if cond then s.achievements + {a} else s.achievements
    ensures r.score - s.score == 100 * (|r.achievements| - |s.achievements|)
    ensures r == s.(achievements := r.achievements, score := r.score)
  {
    if cond then Award(s, a) else s
  }

  /** Awarding a tag twice is awarding it once. */
  lemma AwardIdempotent(s: StateData, a: Achievement)
    ensures Award(Award(s, a), a) == Award(s, a)
  {
  }

  /** Awards commute: the order in which tags are earned does not matter. */
  lemma AwardCommutes(s: StateData, a: Achievement, b: Achievement)
    ensures Award(Award(s, a), b) == Award(Award(s, b), a)
  {
    var ab := Award(Award(s, a), b);
    var ba := Award(Award(s, b), a);
    assert ab.achievements == s.achievements + {a, b} == ba.achievements;
    assert ab.score == ba.score;
  }

  /** What `check_achievements` leaves: the state so far, and whether it ran to the end. */
  datatype Sweep = Sweep(state: StateData, completed: bool)

  /**
   * The time check of `check_achievements`: with a time limit and a truthy
   * end time (not `None`, not zero), the game took `end - start` seconds.
   * A missing start time makes Python raise `TypeError`, shown as `None`.
   */
  function TimeTaken(s: StateData): (r: Option<Option<int>>)
    ensures r.None? <==> s.timeLimit > 0 && s.endTime.Some? && s.endTime.value != 0 && s.startTime.None?
    ensures r.Some? && r.value.Some? <==> s.timeLimit > 0 && s.endTime.Some? && s.endTime.value != 0 && s.startTime.Some?
    ensures r.Some? && r.value.Some? ==> r.value.value == s.endTime.value - s.startTime.value
  {
    if s.timeLimit > 0 && s.endTime.Some? && s.endTime.value != 0 then
      if s.startTime.None? then None else Some(Some(s.endTime.value - s.startTime.value))
    else Some(None)
  }

  /**
   * The last two checks of `check_achievements`: the time check and the hint
   * check, either of which may raise.
   */
  function SweepFinish(s: StateData): (r: Sweep)
    ensures s.achievements <= r.state.achievements
    ensures r.state.achievements - s.achievements <= {CompletedUnderTime, NoHintsUsed}
    ensures r.state.score - s.score == 100 * (|r.state.achievements| - |s.achievements|)
    ensures r.state == s.(achievements := r.state.achievements, score := r.state.score)
    ensures r.completed <==> TimeTaken(s).Some? && LevelOf(s.difficulty).Some?
  {
    match TimeTaken(s)
    case None => Sweep(s, false)
    case Some(taken) =>
      var s3 := AwardIf(s, taken.Some? && taken.value < s.timeLimit, CompletedUnderTime);
      match LevelOf(s.difficulty)
      case None => Sweep(s3, false)
      case Some(level) => Sweep(AwardIf(s3, s.remainingHints == level.hints, NoHintsUsed), true)
  }

  /**
   * The items-collected check as game.py:418-420 writes it: the counter is
   * compared with the items still lying in the world, a number every take
   * lowers, so it is met halfway through collecting.
   */
  function CollectedAllAsWritten(s: StateData, lyingItems: int): bool {
    s.itemsCollected == lyingItems
  }

  /**
   * The first two checks of `check_achievements`: every location visited,
   * and the items-collected check, whose outcome is given as `collectedAll`.
   */
  function SweepStart(s: StateData, locationCount: int, collectedAll: bool): (r: StateData)
    ensures s.achievements <= r.achievements
    ensures r.achievements - s.achievements <= {VisitedAllLocations, CollectedAllItems}
    ensures r.score - s.score == 100 * (|r.achievements| - |s.achievements|)
    ensures r == s.(achievements := r.achievements, score := r.score)
    ensures CollectedAllItems in r.achievements <==> CollectedAllItems in s.achievements || collectedAll
  {
    var s1 := AwardIf(s, |s.visited| == locationCount, VisitedAllLocations);
    AwardIf(s1, collectedAll, CollectedAllItems)
  }

  /**
   * The four checks of `check_achievements` in order, with the outcome of the
   * items-collected check given as `collectedAll`; when the time check or
   * the difficulty lookup raises, the awards made before it stand and the
   * sweep is not completed.
   */
  function SweepWith(s: StateData, locationCount: int, collectedAll: bool): (r: Sweep)
    ensures s.achievements <= r.state.achievements
    ensures r.state.achievements - s.achievements <= {VisitedAllLocations, CollectedAllItems, CompletedUnderTime, NoHintsUsed}
    ensures r.state.score - s.score == 100 * (|r.state.achievements| - |s.achievements|)
    ensures r.state == s.(achievements := r.state.achievements, score := r.state.score)
    ensures r.completed <==> TimeTaken(s).Some? && LevelOf(s.difficulty).Some?
    ensures CollectedAllItems in r.state.achievements <==> CollectedAllItems in s.achievements || collectedAll
  {
    var s2 := SweepStart(s, locationCount, collectedAll);
    assert s2.difficulty == s.difficulty && TimeTaken(s2) == TimeTaken(s);
    var r := SweepFinish(s2);
    assert r.state.achievements - s.achievements <= (r.state.achievements - s2.achievements) + (s2.achievements - s.achievements);
    r
  }

  /**
   * `check_achievements`, given the number of locations and the number of
   * items still lying in them, with the items-collected check as written.
   */
  function SweepState(s: StateData, locationCount: int, lyingItems: int): (r: Sweep)
    ensures s.achievements <= r.state.achievements
    ensures r.state.achievements - s.achievements <= {VisitedAllLocations, CollectedAllItems, CompletedUnderTime, NoHintsUsed}
    ensures r.state.score - s.score == 100 * (|r.state.achievements| - |s.achievements|)
    ensures r.state == s.(achievements := r.state.achievements, score := r.state.score)
    ensures r.completed <==> TimeTaken(s).Some? && LevelOf(s.difficulty).Some?
  {
    SweepWith(s, locationCount, CollectedAllAsWritten(s, lyingItems))
  }

  /**
   * The sweep with the corrected items-collected check, which is met when no
   * item is left lying in the world.
   */
  function SweepCorrected(s: StateData, locationCount: int, lyingItems: int): (r: Sweep)
    ensures CollectedAllItems in r.state.achievements <==> CollectedAllItems in s.achievements || lyingItems == 0
  {
    SweepWith(s, locationCount, lyingItems == 0)
  }

  /**
   * The sweep awards each of its four tags exactly when its condition holds
   * (or the tag was already held): every location visited, as many items
   * collected as still lie in the world, the game finished in less time than
   * the limit, and the hint quota untouched.  The first two checks run even when a later
   * one raises.
   */
  lemma SweepAwards(s: StateData, locationCount: int, lyingItems: int)
    ensures var r := SweepState(s, locationCount, lyingItems);
      && (VisitedAllLocations in r.state.achievements <==>
            VisitedAllLocations in s.achievements || |s.visited| == locationCount)
      && (CollectedAllItems in r.state.achievements <==>
            CollectedAllItems in s.achievements || s.itemsCollected == lyingItems)
      && (CompletedUnderTime in r.state.achievements <==>
            CompletedUnderTime in s.achievements ||
            (TimeTaken(s).Some? && TimeTaken(s).value.Some? && TimeTaken(s).value.value < s.timeLimit))
      && (NoHintsUsed in r.state.achievements <==>
            NoHintsUsed in s.achievements ||
            (r.completed && s.remainingHints == LevelOf(s.difficulty).value.hints))
  {
  }

  /** Sweeping twice awards nothing more than sweeping once. */
  lemma SweepIdempotent(s: StateData, locationCount: int, lyingItems: int)
    requires SweepState(s, locationCount, lyingItems).completed
    ensures var once := SweepState(s, locationCount, lyingItems).state;
            SweepState(once, locationCount, lyingItems).state == once
  {
    var once := SweepState(s, locationCount, lyingItems).state;
    var twice := SweepState(once, locationCount, lyingItems).state;
    SweepAwards(s, locationCount, lyingItems);
    SweepAwards(once, locationCount, lyingItems);
    assert TimeTaken(once) == TimeTaken(s);
    assert twice.achievements == once.achievements;
  }

  // ---------------------------------------------------------------------
  // Contextual achievements (`trigger_special_event`)

  datatype Event = EngineeringEvent | TeachingEvent | NobelEvent | SocialEvent

  /** The tag each event awards. */
  function EventTag(e: Event): Achievement {
    match e
    case EngineeringEvent => EngineeringMaster
    case TeachingEvent => TeachingPioneer
    case NobelEvent => NobelPotential
    case SocialEvent => SocialButterfly
  }

  /** When the event fires: the items it needs are carried, at the place it needs. */
  predicate EventReady(s: StateData, e: Event) {
    match e
    case EngineeringEvent =>
      "mechanical_tools" in s.inventory && "circuit_board" in s.inventory && "engineering_drawing" in s.inventory
    case TeachingEvent => "teaching_plan" in s.inventory && s.location == "Education Building"
    case NobelEvent => "microscope_slides" in s.inventory && s.location == "Madsen Building"
    case SocialEvent => "graduation_gown" in s.inventory
  }

  /**
   * `trigger_special_event`: fires exactly when the event is ready, and then
   * awards its tag; otherwise the state is left alone.
   */
  function Trigger(s: StateData, e: Event): (r: (StateData, bool))
    ensures r.1 <==> EventReady(s, e)
    ensures r.1 ==> r.0 == Award(s, EventTag(e))
    ensures !r.1 ==> r.0 == s
  {
    if EventReady(s, e) then (Award(s, EventTag(e)), true) else (s, false)
  }

  // ---------------------------------------------------------------------
  // The snapshot (`to_dict` / `from_dict`)

  /** `HintSystem` as the snapshot stores it. */
  datatype HintData = HintData(currentHint: int, mysteriousNoteUsed: int)

  /**
   * The dictionary `to_dict` builds.  Sets are stored as lists in JSON and
   * turned back into sets by `from_dict`, so their order and repeats carry no
   * meaning: they are sets here.  Achievements are stored by name.
   */
  datatype SaveData = SaveData(
    playerLocation: string,
    playerInventory: seq<string>,
    gameStartTime: Option<int>,
    timeLimit: int,
    remainingHints: int,
    difficulty: string,
    requiredItems: seq<string>,
    visitedLocations: set<string>,
    gameScore: int,
    achievements: set<string>,
    puzzleSolved: bool,
    stepsTaken: int,
    itemsCollected: int,
    startTime: Option<int>,
    endTime: Option<int>,
    specialEvents: set<string>,
    questProgress: map<string, string>,
    hintSystem: HintData,
    hasEnteredCampus: bool)

  /** `to_dict`. */
  function Encode(s: StateData): (d: SaveData)
    ensures forall a :: a in s.achievements <==> Name(a) in d.achievements
    ensures forall x :: x in d.achievements ==> Parse(x).Some?
  {
    SaveData(s.location, s.inventory, s.gameStartTime, s.timeLimit, s.remainingHints, s.difficulty,
             s.requiredItems, s.visited, s.score, set a | a in s.achievements :: Name(a),
             s.puzzleSolved, s.steps, s.itemsCollected, s.startTime, s.endTime, s.specialEvents,
             s.questProgress, HintData(s.hints.currentHint, s.hints.noteUsed), s.hasEnteredCampus)
  }

  /** Every stored achievement name is a tag's name. */
  predicate AllTags(names: set<string>) {
    forall x :: x in names ==> Parse(x).Some?
  }

  /** The tags a set of names stands for, when every name is a tag's. */
  function Tags(names: set<string>): (r: set<Achievement>)
    requires AllTags(names)
    ensures forall a :: a in r <==> Name(a) in names
  {
    ParseNames();
    set x | x in names :: Parse(x).value
  }

  /**
   * `from_dict`: every field is copied back; an achievement name that is
   * not a tag's makes it fail.
   */
  function Decode(d: SaveData): (r: Option<StateData>)
    ensures r.Some? <==> AllTags(d.achievements)
    ensures r.Some? ==> forall a :: a in r.value.achievements <==> Name(a) in d.achievements
  {
    if AllTags(d.achievements) then
      Some(StateData(d.playerLocation, d.playerInventory, d.gameStartTime, d.timeLimit, d.remainingHints,
                     d.difficulty, d.requiredItems, d.visitedLocations, d.gameScore,
                     Tags(d.achievements),
                     d.puzzleSolved, d.stepsTaken, d.itemsCollected, d.startTime, d.endTime,
                     d.specialEvents, d.questProgress,
                     HintState(d.hintSystem.currentHint, d.hintSystem.mysteriousNoteUsed),
                     d.hasEnteredCampus))
    else None
  }

  /** `from_dict(to_dict(s))` reproduces every field of `s`. */
  lemma DecodeEncode(s: StateData)
    ensures Decode(Encode(s)) == Some(s)
  {
    var d := Encode(s);
    var back := Decode(d).value;
    forall a ensures a in back.achievements <==> a in s.achievements {
      ParseName(a);
    }
    assert back.achievements == s.achievements;
    assert back.hints == s.hints;
  }

  /** A snapshot that decodes is the snapshot of what it decodes to. */
  lemma EncodeDecode(d: SaveData)
    requires Decode(d).Some?
    ensures Encode(Decode(d).value) == d
  {
    var s := Decode(d).value;
    var e := Encode(s);
    forall x ensures x in e.achievements <==> x in d.achievements {
      if x in d.achievements {
        assert Name(Parse(x).value) == x;
      }
    }
  }
}
