/**
 * The command interpreter of `GameCommands` (game.py:467-886) as functions
 * from the world and the state before a command to what the command leaves:
 * tokenising and dispatch (`process`), and the handlers `go`, `look`,
 * `take`, `use`, `hint`, `examine`, `difficulty`, `save`, `load`, `stats`,
 * `time` and the display-only verbs.  The `map` command runs the repair,
 * which is a method, and is modelled in the engine.
 *
 * Python exceptions that nothing catches (a `KeyError` on a location or hint
 * index the tables lack, a `TypeError` on a missing start time) end the
 * command with the outcome `Raised`, keeping whatever was changed before.
 */
module Commands {
  import opened Wrappers
  import opened Text
  import opened WorldMap
  import opened Progress

  /** `GameState`, plus `Raised` for a command that ends in an uncaught exception. */
  datatype Outcome = Continue | Win | Lose | Quit | AccessDenied | SpecialEvent | HintActivated | Raised

  /** What a command that may change the world leaves behind. */
  datatype Turn = Turn(outcome: Outcome, world: World, state: StateData)

  /** What a command that leaves the world alone leaves behind. */
  datatype Reply = Reply(outcome: Outcome, state: StateData)

  // ---------------------------------------------------------------------
  // `go` (game.py:507-528)

  /** The location exit `d` of the player's location leads to, if any. */
  function Target(w: World, s: StateData, d: string): Option<string> {
    if s.location in w && d in w[s.location].exits then Some(w[s.location].exits[d]) else None
  }

  /** The state after a move to `next`: visited, +10 score, one more step. */
  function Moved(s: StateData, next: string): StateData {
    s.(location := next, visited := s.visited + {next}, score := s.score + 10, steps := s.steps + 1)
  }

  /**
   * `go`: the player moves exactly when the direction is an exit of the
   * current location and the gate of the location it leads to lets them
   * through; a closed gate answers `AccessDenied`; a missing or unknown
   * direction answers `Continue`.  Only a move changes the state.
   */
  function GoStep(w: World, s: StateData, args: seq<string>): (r: Reply)
    ensures args != [] && Target(w, s, args[0]).Some? && Target(w, s, args[0]).value in w &&
            CheckAccess(w[Target(w, s, args[0]).value], s.inventory)
            ==> r == Reply(Continue, Moved(s, Target(w, s, args[0]).value))
    ensures r.outcome == AccessDenied <==>
            args != [] && Target(w, s, args[0]).Some? && Target(w, s, args[0]).value in w &&
            !CheckAccess(w[Target(w, s, args[0]).value], s.inventory)
    ensures r.outcome == Raised <==>
            args != [] && (s.location !in w || (Target(w, s, args[0]).Some? && Target(w, s, args[0]).value !in w))
    ensures args == [] || (s.location in w && args[0] !in w[s.location].exits) ==> r == Reply(Continue, s)
    ensures r.outcome != Continue ==> r.state == s
    ensures r.outcome in {Continue, AccessDenied, Raised}
  {
    if args == [] then Reply(Continue, s)
    else if s.location !in w then Reply(Raised, s)
    else
      var exits := w[s.location].exits;
      if args[0] in exits then
        var next := exits[args[0]];
        if next !in w then Reply(Raised, s)
        else if CheckAccess(w[next], s.inventory) then Reply(Continue, Moved(s, next))
        else Reply(AccessDenied, s)
      else Reply(Continue, s)
  }

  /**
   * A move that is not made leaves the state as it was; a move that is made
   * goes through the exit named by the first argument, into a location whose
   * gate admits the player.
   */
  lemma GoOnlyMoves(w: World, s: StateData, args: seq<string>)
    ensures var r := GoStep(w, s, args);
            r.state != s ==>
              && r.outcome == Continue
              && args != [] && Target(w, s, args[0]).Some?
              && r.state == Moved(s, Target(w, s, args[0]).value)
              && r.state.location == w[s.location].exits[args[0]]
              && r.state.location in w
              && r.state.visited == s.visited + {r.state.location}
              && r.state.score == s.score + 10 && r.state.steps == s.steps + 1
              && CheckAccess(w[r.state.location], s.inventory)
  {
  }

  /** `look`: only prints; an unknown location raises. */
  function LookStep(w: World, s: StateData): (o: Outcome)
    ensures o == Raised <==> s.location !in w
    ensures o != Raised ==> o == Continue
  {
    if s.location in w then Continue else Raised
  }

  // ---------------------------------------------------------------------
  // `take` (game.py:535-564)

  /** `" ".join(args).replace('_', ' ').lower()`. */
  function TakeKey(args: seq<string>): string {
    Lower(Underscores(JoinSpace(args)))
  }

  /** The name of the lost notes; taking them wins the game. */
  const Notes := "COMP9001 notes"

  /**
   * `take`: the first item at the player's location whose lower-case,
   * underscores-as-spaces form equals the typed name moves from the location
   * to the end of the inventory, for 20 points and one more item collected;
   * the notes also win the game, award `FOUND_NOTES` and stop the clock at
   * `now`.  When nothing matches, nothing changes.
   */
  function TakeStep(w: World, s: StateData, args: seq<string>, now: int): (r: Turn)
    ensures r.outcome in {Continue, Win, Raised}
    ensures r.outcome == Raised <==> args != [] && s.location !in w
    ensures r.outcome == Win ==> Notes in r.state.inventory && FoundNotes in r.state.achievements
    ensures r.outcome == Win ==> r.state.endTime == Some(now)
    ensures r.state != s || r.world != w ==>
              args != [] && s.location in w && FirstMatch(w[s.location].items, TakeKey(args)).Some?
    ensures (r.state != s || r.world != w) && s.location in w && FirstMatch(w[s.location].items, TakeKey(args)).Some? ==>
              var i := FirstMatch(w[s.location].items, TakeKey(args)).value;
              && r.world == TakeFrom(w, s.location, i)
              && r.state.inventory == s.inventory + [w[s.location].items[i]]
              && r.state.itemsCollected == s.itemsCollected + 1
              && (r.outcome == Win <==> w[s.location].items[i] == Notes)
    ensures args != [] && s.location in w && FirstMatch(w[s.location].items, TakeKey(args)).Some? ==>
              var i := FirstMatch(w[s.location].items, TakeKey(args)).value;
              w[s.location].items[i] != "" ==>
                && r.world == TakeFrom(w, s.location, i)
                && Reply(r.outcome, r.state) == Pocket(s, w[s.location].items[i], now)
    ensures args != [] && s.location in w && FirstMatch(w[s.location].items, TakeKey(args)).None? ==>
              r == Turn(Continue, w, s)
  {
    if args == [] then Turn(Continue, w, s)
    else if s.location !in w then Turn(Raised, w, s)
    else
      var items := w[s.location].items;
      match FirstMatch(items, TakeKey(args))
      case None => Turn(Continue, w, s)
      case Some(i) =>
        var item := items[i];
        if item == "" then Turn(Continue, w, s)
        else
          RemoveFirstAt(items, i);
          var w' := w[s.location := w[s.location].(items := RemoveFirst(items, item))];
          var p := Pocket(s, item, now);
          Turn(p.outcome, w', p.state)
  }

  /**
   * The state side of a successful take: the item goes to the end of the
   * inventory for 20 points and one more item collected; the notes also win
   * the game, award `FOUND_NOTES` and stop the clock at `now`.
   */
  function Pocket(s: StateData, item: string, now: int): (r: Reply)
    ensures r.outcome in {Continue, Win}
    ensures r.outcome == Win <==> item == Notes
    ensures r.state.inventory == s.inventory + [item]
    ensures r.state.itemsCollected == s.itemsCollected + 1
    ensures r.outcome == Win ==> FoundNotes in r.state.achievements && r.state.endTime == Some(now)
    ensures item != Notes ==>
              r.state == s.(inventory := s.inventory + [item], score := s.score + 20, itemsCollected := s.itemsCollected + 1)
    ensures item == Notes ==>
              r.state == Award(s.(inventory := s.inventory + [item], score := s.score + 20,
                                  itemsCollected := s.itemsCollected + 1), FoundNotes).(endTime := Some(now))
  {
    var s' := s.(inventory := s.inventory + [item], score := s.score + 20, itemsCollected := s.itemsCollected + 1);
    if item == Notes then Reply(Win, Award(s', FoundNotes).(endTime := Some(now)))
    else Reply(Continue, s')
  }

  /** The typed name is keyed as the item names are, whichever order the two steps run in. */
  lemma TakeKeyIsItemKey(args: seq<string>)
    ensures TakeKey(args) == ItemKey(JoinSpace(args))
  {
    LowerUnderscoresCommute(JoinSpace(args));
  }

  /**
   * Typing an item's own name takes it: the first item at the location with
   * that name's key is the one picked up, for the same 20 points.
   */
  lemma TakeByName(w: World, s: StateData, i: nat, now: int)
    requires s.location in w && i < |w[s.location].items| && w[s.location].items[i] != ""
    requires forall j :: 0 <= j < i ==> ItemKey(w[s.location].items[j]) != ItemKey(w[s.location].items[i])
    ensures var r := TakeStep(w, s, [w[s.location].items[i]], now);
            && r.world == TakeFrom(w, s.location, i)
            && Reply(r.outcome, r.state) == Pocket(s, w[s.location].items[i], now)
  {
    var items := w[s.location].items;
    var args := [items[i]];
    TakeKeyIsItemKey(args);
    assert JoinSpace(args) == items[i];
    assert FirstMatch(items, TakeKey(args)) == Some(i);
  }

  /**
   * A take moves one item: the items lying at the location plus those
   * carried are the same before and after, the world holds one item fewer,
   * and the score rises by 20 (and by 100 more for the first `FOUND_NOTES`).
   */
  lemma TakeMovesOneItem(w: World, s: StateData, args: seq<string>, now: int)
    requires s.location in w
    requires TakeStep(w, s, args, now).world != w
    ensures var r := TakeStep(w, s, args, now);
            && multiset(r.world[s.location].items) + multiset(r.state.inventory)
               == multiset(w[s.location].items) + multiset(s.inventory)
            && TotalItems(r.world) + 1 == TotalItems(w)
            && r.state.score == s.score + 20 + (if r.outcome == Win && FoundNotes !in s.achievements then 100 else 0)
  {
    var r := TakeStep(w, s, args, now);
    var items := w[s.location].items;
    var i := FirstMatch(items, TakeKey(args)).value;
    TakeLowersTotal(w, s.location, i);
    assert items == items[..i] + [items[i]] + items[i + 1..];
    assert r.world[s.location].items == items[..i] + items[i + 1..];
  }

  /** A take keeps the items collected plus the items lying in the world constant. */
  lemma TakeKeepsTally(w: World, s: StateData, args: seq<string>, now: int)
    ensures var r := TakeStep(w, s, args, now);
            r.state.itemsCollected + TotalItems(r.world) == s.itemsCollected + TotalItems(w)
  {
    var r := TakeStep(w, s, args, now);
    if r.world != w {
      TakeMovesOneItem(w, s, args, now);
    }
  }

  /**
   * The items-collected check as written (`CollectedAllAsWritten`) is met
   * halfway: in a world of two items, one take meets it while an item still
   * lies in the world, and the sweep awards COLLECTED_ALL_ITEMS.
   */
  lemma HalfwayAward()
    ensures var w := map[Start := Location(map[], ["pen", "cup"], map[], None)];
            var t := TakeStep(w, NewState(), ["pen"], 0);
            && t.state.itemsCollected == 1
            && TotalItems(t.world) == 1
            && CollectedAllAsWritten(t.state, TotalItems(t.world))
            && CollectedAllItems in SweepState(t.state, |t.world|, TotalItems(t.world)).state.achievements
  {
    var w := map[Start := Location(map[], ["pen", "cup"], map[], None)];
    assert w[Start].items[0] == "pen";
    TakeByName(w, NewState(), 0, 0);
    var t := TakeStep(w, NewState(), ["pen"], 0);
    assert t.world[Start].items == ["cup"];
    ItemCountRemove(t.world, {Start}, Start);
    assert t.world.Keys == {Start};
    SweepAwards(t.state, |t.world|, TotalItems(t.world));
  }

  /**
   * The corrected check does what the tag promises: when a game started with
   * `placed` items in the world (and a take keeps the items collected plus
   * those lying at `placed`, `TakeKeepsTally`), the sweep holds
   * COLLECTED_ALL_ITEMS exactly when all `placed` items were collected.
   */
  lemma CollectedAllIntended(w: World, s: StateData, placed: int, locationCount: int)
    requires s.itemsCollected + TotalItems(w) == placed
    ensures var r := SweepCorrected(s, locationCount, TotalItems(w));
            CollectedAllItems in r.state.achievements <==>
              CollectedAllItems in s.achievements || s.itemsCollected == placed
  {
  }

  // ---------------------------------------------------------------------
  // `use` (game.py:679-735)

  /**
   * `use`: an item not carried does nothing.  The student card lets the
   * player in once (`SPECIAL_EVENT`, `ENTERED_CAMPUS`); the mysterious note
   * counts its uses and crumbles on the second (`HINT_ACTIVATED`); the menu
   * is only read; the gown, the teaching plan and the slides try their own
   * event first; every item other than the first three then tries the
   * engineering event.
   */
  function UseStep(s: StateData, args: seq<string>): (r: Reply)
    ensures args == [] || args[0] !in s.inventory ==> r == Reply(Continue, s)
    ensures r.outcome in {Continue, SpecialEvent, HintActivated}
    ensures r.outcome == HintActivated <==> args != [] && args[0] == "mysterious_note" && args[0] in s.inventory
    ensures r.state.remainingHints == s.remainingHints && r.state.hints.currentHint == s.hints.currentHint
    ensures r.state.location == s.location && r.state.score >= s.score
    ensures s.achievements <= r.state.achievements
    ensures args != [] && args[0] in s.inventory ==>
              && (args[0] == "student_card" ==> r == CardUse(s))
              && (args[0] == "mysterious_note" ==> r == NoteUse(s))
              && (args[0] == "cafeteria_menu" ==> r == Reply(Continue, s))
              && (args[0] !in {"student_card", "mysterious_note", "cafeteria_menu"} ==> r == EventUse(s, args[0]))
  {
    if args == [] || args[0] !in s.inventory then Reply(Continue, s)
    else
      var item := args[0];
      if item == "student_card" then CardUse(s)
      else if item == "mysterious_note" then NoteUse(s)
      else if item == "cafeteria_menu" then Reply(Continue, s)
      else EventUse(s, item)
  }

  /** Showing the student card: the first time enters the campus for `ENTERED_CAMPUS`. */
  function CardUse(s: StateData): Reply {
    if !s.hasEnteredCampus then Reply(SpecialEvent, Award(s.(hasEnteredCampus := true), EnteredCampus))
    else Reply(Continue, s)
  }

  /** Reading the note: the counter rises, and the second reading consumes the note. */
  function NoteUse(s: StateData): Reply
    requires "mysterious_note" in s.inventory
  {
    var used := s.hints.noteUsed + 1;
    var s' := s.(hints := s.hints.(noteUsed := used));
    if used == 2 then
      Reply(HintActivated, s'.(inventory := RemoveFirst(s.inventory, "mysterious_note")))
    else Reply(HintActivated, s')
  }

  /** The event an item of `use` tries first: the gown, the teaching plan and the slides have one. */
  function OwnEvent(item: string): (e: Option<Event>)
    ensures e.Some? <==> item in {"graduation_gown", "teaching_plan", "microscope_slides"}
    ensures e.Some? ==> e.value != EngineeringEvent
  {
    if item == "graduation_gown" then Some(SocialEvent)
    else if item == "teaching_plan" then Some(TeachingEvent)
    else if item == "microscope_slides" then Some(NobelEvent)
    else None
  }

  /**
   * Any other item: its own event when it has one and it fires; otherwise
   * the engineering event when it fires; otherwise nothing happens.  At most
   * one event fires.
   */
  function EventUse(s: StateData, item: string): (r: Reply)
    ensures OwnEvent(item).Some? && EventReady(s, OwnEvent(item).value) ==>
              r == Reply(SpecialEvent, Award(s, EventTag(OwnEvent(item).value)))
    ensures !(OwnEvent(item).Some? && EventReady(s, OwnEvent(item).value)) && EventReady(s, EngineeringEvent) ==>
              r == Reply(SpecialEvent, Award(s, EventTag(EngineeringEvent)))
    ensures !(OwnEvent(item).Some? && EventReady(s, OwnEvent(item).value)) && !EventReady(s, EngineeringEvent) ==>
              r == Reply(Continue, s)
  {
    var own := OwnEvent(item);
    if own.Some? && Trigger(s, own.value).1 then Reply(SpecialEvent, Trigger(s, own.value).0)
    else if Trigger(s, EngineeringEvent).1 then Reply(SpecialEvent, Trigger(s, EngineeringEvent).0)
    else Reply(Continue, s)
  }

  /**
   * An item's own event takes precedence: when it fires, the engineering
   * event is not tried by that use, even when its items are carried.
   */
  lemma OwnEventFirst(s: StateData, item: string)
    requires item in s.inventory && OwnEvent(item).Some? && EventReady(s, OwnEvent(item).value)
    ensures var r := UseStep(s, [item]);
            && r.outcome == SpecialEvent
            && EventTag(OwnEvent(item).value) in r.state.achievements
            && (EventTag(EngineeringEvent) in r.state.achievements <==> EventTag(EngineeringEvent) in s.achievements)
  {
  }

  /**
   * The student card works once: the first use enters the campus and
   * awards `ENTERED_CAMPUS`; any later use changes nothing.
   */
  lemma StudentCardOnce(s: StateData)
    requires "student_card" in s.inventory && !s.hasEnteredCampus
    ensures var first := UseStep(s, ["student_card"]);
            && first.outcome == SpecialEvent
            && first.state.hasEnteredCampus && EnteredCampus in first.state.achievements
            && UseStep(first.state, ["student_card"]) == Reply(Continue, first.state)
  {
  }

  /**
   * Reading the note: the first use keeps it in the inventory, the second
   * removes one copy of it; both answer `HINT_ACTIVATED`, and neither touches
   * the hint quota or the selected hint.
   */
  lemma NoteSequence(s: StateData)
    requires "mysterious_note" in s.inventory && s.hints.noteUsed == 0
    ensures var first := UseStep(s, ["mysterious_note"]);
            var second := UseStep(first.state, ["mysterious_note"]);
            && first.outcome == HintActivated && second.outcome == HintActivated
            && first.state.inventory == s.inventory
            && first.state.hints.noteUsed == 1 && second.state.hints.noteUsed == 2
            && multiset(second.state.inventory) + multiset{"mysterious_note"} == multiset(s.inventory)
            && second.state.remainingHints == s.remainingHints
            && second.state.hints.currentHint == s.hints.currentHint
  {
  }

  // ---------------------------------------------------------------------
  // `hint` (game.py:669-677)

  /**
   * `hint`: with hints left, one is used up and costs 50 points; with none
   * left, nothing changes.  The selected hint is never advanced.  A selected
   * hint outside 1..3 raises after the quota was already lowered.
   */
  function HintStep(s: StateData): (r: Reply)
    ensures r.state.hints == s.hints
    ensures s.remainingHints <= 0 ==> r == Reply(Continue, s)
    ensures s.remainingHints > 0 ==> r.state.remainingHints == s.remainingHints - 1
    ensures s.remainingHints > 0 && r.outcome == Continue ==> r.state.score == s.score - 50
    ensures r.outcome == Raised <==> s.remainingHints > 0 && HintText(s.hints.currentHint).None?
    ensures r.outcome in {Continue, Raised}
    ensures r.state == s.(remainingHints := r.state.remainingHints, score := r.state.score)
  {
    if s.remainingHints > 0 then
      var s' := s.(remainingHints := s.remainingHints - 1);
      if HintText(s.hints.currentHint).None? then Reply(Raised, s')
      else Reply(Continue, s'.(score := s'.score - 50))
    else Reply(Continue, s)
  }

  /**
   * Asking for `k` hints from a quota of `q` uses exactly `min(k, q)` of them
   * and never drives the quota below zero.
   */
  function Hints(s: StateData, k: nat): StateData
    decreases k
  {
    if k == 0 then s else Hints(HintStep(s).state, k - 1)
  }

  lemma {:induction false} HintQuota(s: StateData, k: nat)
    requires s.remainingHints >= 0 && HintText(s.hints.currentHint).Some?
    ensures Hints(s, k).remainingHints == if k <= s.remainingHints then s.remainingHints - k else 0
    ensures Hints(s, k).score == s.score - 50 * (if k <= s.remainingHints then k else s.remainingHints)
    ensures Hints(s, k).hints == s.hints
    decreases k
  {
    if k > 0 {
      HintQuota(HintStep(s).state, k - 1);
    }
  }

  // ---------------------------------------------------------------------
  // `examine` (game.py:737-751)

  datatype Examined = NoArgument | NotCarried | Described(text: string) | NothingSpecial | LocationUnknown

  /**
   * `examine`: a carried item is described by the special table of the
   * location the player stands in, wherever the item came from.
   */
  function ExamineStep(w: World, s: StateData, args: seq<string>): (r: Examined)
    ensures r == NoArgument <==> args == []
    ensures r == NotCarried <==> args != [] && args[0] !in s.inventory
    ensures r.Described? <==> args != [] && args[0] in s.inventory && s.location in w && args[0] in w[s.location].special
    ensures r.Described? ==> r.text == w[s.location].special[args[0]].description
    ensures r == LocationUnknown <==> args != [] && args[0] in s.inventory && s.location !in w
  {
    if args == [] then NoArgument
    else if args[0] !in s.inventory then NotCarried
    else if s.location !in w then LocationUnknown
    else if args[0] in w[s.location].special then Described(w[s.location].special[args[0]].description)
    else NothingSpecial
  }

  // ---------------------------------------------------------------------
  // `difficulty` (game.py:616-637)

  /**
   * `difficulty <level>`: a known level resets the difficulty, the time
   * limit and the hint quota from the table; the score and everything else
   * stay.  No argument or an unknown level changes nothing.
   */
  function DifficultyStep(s: StateData, args: seq<string>): (r: Reply)
    ensures r.outcome == Continue && r.state.score == s.score
    ensures args != [] && LevelOf(Lower(args[0])).Some? ==>
              && r.state.difficulty == Lower(args[0])
              && r.state.timeLimit == LevelOf(Lower(args[0])).value.timeLimit
              && r.state.remainingHints == LevelOf(Lower(args[0])).value.hints
    ensures args == [] || LevelOf(Lower(args[0])).None? ==> r.state == s
    ensures r.state == s.(difficulty := r.state.difficulty, timeLimit := r.state.timeLimit, remainingHints := r.state.remainingHints)
  {
    if args == [] then Reply(Continue, s)
    else
      var d := Lower(args[0]);
      match LevelOf(d)
      case None => Reply(Continue, s)
      case Some(level) => Reply(Continue, s.(difficulty := d, timeLimit := level.timeLimit, remainingHints := level.hints))
  }

  /**
   * Right after a level is chosen the quota is untouched, so a completed
   * sweep awards `NO_HINTS_USED`.
   */
  lemma DifficultyThenSweep(s: StateData, level: string, locationCount: int, lyingItems: int)
    requires LevelOf(Lower(level)).Some?
    requires SweepState(DifficultyStep(s, [level]).state, locationCount, lyingItems).completed
    ensures NoHintsUsed in SweepState(DifficultyStep(s, [level]).state, locationCount, lyingItems).state.achievements
  {
    SweepAwards(DifficultyStep(s, [level]).state, locationCount, lyingItems);
  }

  // ---------------------------------------------------------------------
  // `save` and `load` (game.py:639-667)

  /** The save file as `load` finds it. */
  datatype SaveFile = NoSave | Unreadable | Undecodable | Saved(data: SaveData)

  /** What `load` reports. */
  datatype LoadReport = Loaded | NoSaveFound | Corrupted | LoadFailed

  /** `save`: the file now holds the snapshot of the state. */
  function SaveStep(s: StateData): (f: SaveFile)
    ensures f.Saved? && Decode(f.data) == Some(s)
  {
    DecodeEncode(s);
    Saved(Encode(s))
  }

  /**
   * `load`: a snapshot that decodes replaces the state; a missing,
   * unreadable or undecodable file, or a snapshot with an unknown
   * achievement name, leaves the state as it was.  A snapshot whose location
   * the world lacks still replaces the state, but the display that follows
   * raises inside the `try`, so the load reports an error.
   */
  function LoadStep(w: World, s: StateData, f: SaveFile): (r: (LoadReport, StateData))
    ensures f.Saved? && Decode(f.data).Some? ==> r.1 == Decode(f.data).value
    ensures !(f.Saved? && Decode(f.data).Some?) ==> r.1 == s
    ensures r.0 == Loaded <==> f.Saved? && Decode(f.data).Some? && Decode(f.data).value.location in w
    ensures r.0 == NoSaveFound <==> f.NoSave?
    ensures r.0 == Corrupted <==> f.Undecodable?
  {
    match f
    case NoSave => (NoSaveFound, s)
    case Unreadable => (LoadFailed, s)
    case Undecodable => (Corrupted, s)
    case Saved(d) =>
      match Decode(d)
      case None => (LoadFailed, s)
      case Some(t) => if t.location in w then (Loaded, t) else (LoadFailed, t)
  }

  /** Loading what was saved gives back the saved state, whatever the state is now. */
  lemma SaveThenLoad(w: World, saved: StateData, current: StateData)
    requires saved.location in w
    ensures LoadStep(w, current, SaveStep(saved)) == (Loaded, saved)
  {
  }

  /** A snapshot naming an achievement that does not exist loads nothing. */
  lemma LoadUnknownTag(w: World, s: StateData, d: SaveData, name: string)
    requires name in d.achievements && Parse(name).None?
    ensures LoadStep(w, s, Saved(d)) == (LoadFailed, s)
  {
  }

  // ---------------------------------------------------------------------
  // Display-only commands that can still raise

  /** `stats`: the time played needs a start time. */
  function StatsStep(s: StateData): (o: Outcome)
    ensures o == Raised <==> s.startTime.None?
    ensures o != Raised ==> o == Continue
  {
    if s.startTime.None? then Raised else Continue
  }

  /** `time`: with a time limit, the time left needs a start time. */
  function TimeStep(s: StateData): (o: Outcome)
    ensures o == Raised <==> s.timeLimit > 0 && s.startTime.None?
    ensures o != Raised ==> o == Continue
  {
    if s.timeLimit > 0 && s.startTime.None? then Raised else Continue
  }

  /** What `time` shows. */
  datatype TimeShown = NoLimit | Remaining(seconds: int) | TimesUp

  /**
   * `time` at clock reading `now`: no limit at the levels without one;
   * otherwise the seconds left while some are left, and "time's up" once
   * none are.  `None` is the missing start time the subtraction raises on.
   */
  function TimeLeft(s: StateData, now: int): (r: Option<TimeShown>)
    ensures r.None? <==> s.timeLimit > 0 && s.startTime.None?
    ensures r == Some(NoLimit) <==> s.timeLimit <= 0
    ensures r.Some? && r.value.Remaining? <==>
              s.timeLimit > 0 && s.startTime.Some? && now - s.startTime.value < s.timeLimit
    ensures r.Some? && r.value.Remaining? ==>
              r.value.seconds == s.timeLimit - (now - s.startTime.value) > 0
    ensures r == Some(TimesUp) <==>
              s.timeLimit > 0 && s.startTime.Some? && now - s.startTime.value >= s.timeLimit
  {
    if s.timeLimit <= 0 then Some(NoLimit)
    else if s.startTime.None? then None
    else
      var remaining := s.timeLimit - (now - s.startTime.value);
      if remaining > 0 then Some(Remaining(remaining)) else Some(TimesUp)
  }

  /** `time` raises exactly when there is nothing it can show, whatever the clock says. */
  lemma TimeStepShows(s: StateData, now: int)
    ensures TimeStep(s) == Raised <==> TimeLeft(s, now).None?
  {
  }

  /**
   * The clock only runs down: a later reading never shows more seconds
   * left, and once the time is up it stays up.
   */
  lemma TimeRunsDown(s: StateData, now: int, later: int)
    requires now <= later
    ensures TimeLeft(s, later).Some? && TimeLeft(s, later).value.Remaining? ==>
              TimeLeft(s, now).Some? && TimeLeft(s, now).value.Remaining?
              && TimeLeft(s, later).value.seconds <= TimeLeft(s, now).value.seconds
    ensures TimeLeft(s, now) == Some(TimesUp) ==> TimeLeft(s, later) == Some(TimesUp)
  {
  }

  // ---------------------------------------------------------------------
  // `process` (game.py:491-505)

  /** The verbs `GameCommands.commands` maps to handlers. */
  const Verbs: set<string> := {"go", "look", "take", "inventory", "quit", "help", "save", "load", "hint",
                               "use", "examine", "score", "achievements", "stats", "time", "difficulty", "map"}

  /** `command_input.lower().split()`. */
  function Words(line: string): (ws: seq<string>)
    ensures forall i :: 0 <= i < |ws| ==> ws[i] != [] && NoSpace(ws[i])
  {
    Split(Lower(line))
  }

  /**
   * `process` for every verb except `map`: empty input and unknown verbs
   * answer `Continue` and change nothing; only `take` changes the world,
   * only `save` writes the file, only `quit` quits and only `take` wins;
   * `examine` changes nothing but raises at a location missing from the world.
   */
  function Dispatch(w: World, s: StateData, f: SaveFile, line: string, now: int): (r: (Turn, SaveFile))
    requires Words(line) == [] || Words(line)[0] != "map"
    ensures Words(line) == [] || Words(line)[0] !in Verbs ==> r == (Turn(Continue, w, s), f)
    ensures r.0.world != w ==> Words(line)[0] == "take"
    ensures r.1 != f ==> Words(line)[0] == "save"
    ensures r.0.state != s ==> Words(line)[0] in {"go", "take", "use", "hint", "difficulty", "load"}
    ensures r.0.outcome == Quit <==> Words(line) != [] && Words(line)[0] == "quit"
    ensures r.0.outcome == Win ==> Words(line)[0] == "take"
    ensures Words(line) != [] && Words(line)[0] == "examine" ==>
              && r.0.world == w && r.0.state == s && r.1 == f
              && (r.0.outcome == Raised <==> ExamineStep(w, s, Words(line)[1..]) == LocationUnknown)
  {
    var words := Words(line);
    if words == [] then (Turn(Continue, w, s), f)
    else Command(w, s, f, words[0], words[1..], now)
  }

  /** One verb with its arguments, as `process` dispatches it. */
  function Command(w: World, s: StateData, f: SaveFile, verb: string, args: seq<string>, now: int): (r: (Turn, SaveFile))
    requires verb != "map"
    ensures verb !in Verbs ==> r == (Turn(Continue, w, s), f)
    ensures r.0.world != w ==> verb == "take"
    ensures r.1 != f ==> verb == "save"
    ensures r.0.state != s ==> verb in {"go", "take", "use", "hint", "difficulty", "load"}
    ensures r.0.outcome == Quit <==> verb == "quit"
    ensures r.0.outcome == Win ==> verb == "take"
    ensures verb == "examine" ==>
              && r.0.world == w && r.0.state == s && r.1 == f
              && (r.0.outcome == Raised <==> ExamineStep(w, s, args) == LocationUnknown)
              && (r.0.outcome != Raised ==> r.0.outcome == Continue)
  {
    if verb == "go" then var r := GoStep(w, s, args); (Turn(r.outcome, w, r.state), f)
    else if verb == "look" then (Turn(LookStep(w, s), w, s), f)
    else if verb == "take" then (TakeStep(w, s, args, now), f)
    else if verb == "quit" then (Turn(Quit, w, s), f)
    else if verb == "save" then (Turn(Continue, w, s), SaveStep(s))
    else if verb == "load" then (Turn(Continue, w, LoadStep(w, s, f).1), f)
    else if verb == "examine" then
      // the special table is looked up in the map without a default
      (Turn(if ExamineStep(w, s, args) == LocationUnknown then Raised else Continue, w, s), f)
    else var r := Respond(s, verb, args); (Turn(r.outcome, w, r.state), f)
  }

  /** The verbs that read and change only the player's state; others answer `Continue`. */
  function Respond(s: StateData, verb: string, args: seq<string>): (r: Reply)
    ensures r.outcome != Quit && r.outcome != Win
    ensures r.state != s ==> verb in {"use", "hint", "difficulty"}
    ensures verb !in {"hint", "use", "difficulty", "stats", "time"} ==> r == Reply(Continue, s)
  {
    if verb == "hint" then HintStep(s)
    else if verb == "use" then UseStep(s, args)
    else if verb == "difficulty" then DifficultyStep(s, args)
    else if verb == "stats" then Reply(StatsStep(s), s)
    else if verb == "time" then Reply(TimeStep(s), s)
    else Reply(Continue, s)
  }

  /**
   * No command advances the selected hint: only `load` can change it, so
   * `hint` shows the same text every time (the first hint in a new game).
   */
  lemma HintNeverAdvances(w: World, s: StateData, f: SaveFile, verb: string, args: seq<string>, now: int)
    requires verb != "map" && verb != "load"
    ensures Command(w, s, f, verb, args, now).0.state.hints.currentHint == s.hints.currentHint
  {
  }
}
