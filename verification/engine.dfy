/**
 * The objects of the game as the source keeps them: `HintSystem`,
 * `GameStateManager` and `GameCommands` (game.py:311-886), whose methods
 * update fields in place.  Each method is proved to leave exactly the state
 * the matching function of `Progress` or `Commands` describes, so the
 * properties proved about those functions hold of the objects.
 */
module Engine {
  import opened Wrappers
  import opened Text
  import opened WorldMap
  import opened Progress
  import opened Commands
  import opened Connectivity
  import opened CampusMap

  class HintSystem {
    var currentHint: int
    var noteUsed: int

    constructor()
      ensures currentHint == 1 && noteUsed == 0
    {
      currentHint := 1;
      noteUsed := 0;
    }

    /** A hint system with the two counters a snapshot holds. */
    constructor Restore(current: int, used: int)
      ensures currentHint == current && noteUsed == used
    {
      currentHint := current;
      noteUsed := used;
    }

    /** `advance_hint` (game.py:324-328). */
    method AdvanceHint() returns (advanced: bool)
      modifies this
      ensures (currentHint, advanced) == Advance(old(currentHint))
      ensures noteUsed == old(noteUsed)
    {
      if currentHint < HintCount {
        currentHint := currentHint + 1;
        return true;
      }
      return false;
    }
  }

  /** `sum(len(location['ITEMS']) for location in map_data.values())`. */
  method CountItems(w: World) returns (total: nat)
    ensures total == TotalItems(w)
  {
    var rest := w.Keys;
    total := 0;
    while rest != {}
      invariant rest <= w.Keys
      invariant total + ItemCount(w, rest) == TotalItems(w)
      decreases rest
    {
      var name :| name in rest;
      ItemCountRemove(w, rest, name);
      total := total + |w[name].items|;
      rest := rest - {name};
    }
  }

  class GameStateManager {
    var location: string
    var inventory: seq<string>
    var gameStartTime: Option<int>
    var timeLimit: int
    var remainingHints: int
    var difficulty: string
    var requiredItems: seq<string>
    var visited: set<string>
    var score: int
    var achievements: set<Achievement>
    var puzzleSolved: bool
    var steps: int
    var itemsCollected: int
    var startTime: Option<int>
    var endTime: Option<int>
    var specialEvents: set<string>
    var questProgress: map<string, string>
    const hintSystem: HintSystem
    var hasEnteredCampus: bool

    /** The fields as one value. */
    function Value(): StateData
      reads this, hintSystem
    {
      StateData(location, inventory, gameStartTime, timeLimit, remainingHints, difficulty, requiredItems,
                visited, score, achievements, puzzleSolved, steps, itemsCollected, startTime, endTime,
                specialEvents, questProgress, HintState(hintSystem.currentHint, hintSystem.noteUsed),
                hasEnteredCampus)
    }

    /** `GameStateManager()` (game.py:331-351). */
    constructor()
      ensures Value() == NewState()
      ensures fresh(hintSystem)
    {
      location := Start;
      inventory := [];
      gameStartTime := None;
      timeLimit := 0;
      remainingHints := 0;
      difficulty := "normal";
      requiredItems := [];
      visited := {};
      score := 0;
      achievements := {};
      puzzleSolved := false;
      steps := 0;
      itemsCollected := 0;
      startTime := None;
      endTime := None;
      specialEvents := {};
      questProgress := map[];
      hintSystem := new HintSystem();
      hasEnteredCampus := false;
    }

    /** `add_achievement` (game.py:406-410). */
    method AddAchievement(a: Achievement)
      modifies this
      ensures Value() == Award(old(Value()), a)
    {
      if a !in achievements {
        achievements := achievements + {a};
        score := score + 100;
      }
    }

    /**
     * `check_achievements` (game.py:412-431) against the world `w`;
     * `completed` is false when the sweep stops at an exception.
     */
    method CheckAchievements(w: World) returns (completed: bool)
      modifies this
      ensures Sweep(Value(), completed) == SweepState(old(Value()), |w|, TotalItems(w))
    {
      AwardWhen(|visited| == |w|, VisitedAllLocations);
      var total := CountItems(w);
      AwardWhen(itemsCollected == total, CollectedAllItems);
      completed := FinishChecks();
    }

    /** The time check and the hint check that end `check_achievements`. */
    method FinishChecks() returns (completed: bool)
      modifies this
      ensures Sweep(Value(), completed) == SweepFinish(old(Value()))
    {
      if timeLimit > 0 && endTime.Some? && endTime.value != 0 && startTime.None? {
        return false;
      }
      AwardWhen(timeLimit > 0 && endTime.Some? && endTime.value != 0 && endTime.value - startTime.value < timeLimit,
                CompletedUnderTime);
      var level := LevelOf(difficulty);
      if level.None? {
        return false;
      }
      AwardWhen(remainingHints == level.value.hints, NoHintsUsed);
      return true;
    }

    /** One check of `check_achievements`: award `a` when `cond` holds. */
    method AwardWhen(cond: bool, a: Achievement)
      modifies this
      ensures Value() == AwardIf(old(Value()), cond, a)
    {
      if cond {
        AddAchievement(a);
      }
    }

    /** The move of `go` (game.py:518-522): location, visited set, score and steps. */
    method MoveTo(next: string)
      modifies this
      ensures Value() == Moved(old(Value()), next)
    {
      assert Moved(old(Value()), next) == old(Value()).(location := next, visited := visited + {next}, score := score + 10, steps := steps + 1);
      location := next;
      visited := visited + {next};
      score := score + 10;
      steps := steps + 1;
    }

    /** The state side of `take` (game.py:552-562): the item is carried off. */
    method PickUp(item: string, now: int) returns (o: Outcome)
      modifies this
      ensures Reply(o, Value()) == Pocket(old(Value()), item, now)
    {
      Collect(item);
      if item == Notes {
        AddAchievement(FoundNotes);
        endTime := Some(now);
        return Win;
      }
      return Continue;
    }

    /** The three updates every successful take makes (game.py:552-555). */
    method Collect(item: string)
      modifies this
      ensures Value() == old(Value()).(inventory := old(inventory) + [item], score := old(score) + 20,
                                       itemsCollected := old(itemsCollected) + 1)
    {
      inventory := inventory + [item];
      score := score + 20;
      itemsCollected := itemsCollected + 1;
    }

    /** The state side of `use student_card` (game.py:690-700). */
    method ShowCard() returns (o: Outcome)
      modifies this
      ensures Reply(o, Value()) == CardUse(old(Value()))
    {
      if !hasEnteredCampus {
        assert Award(old(Value()).(hasEnteredCampus := true), EnteredCampus) == Award(old(Value()), EnteredCampus).(hasEnteredCampus := true);
        hasEnteredCampus := true;
        AddAchievement(EnteredCampus);
        return SpecialEvent;
      }
      return Continue;
    }

    /** The state side of `use mysterious_note` (game.py:701-712). */
    method ReadNote() returns (o: Outcome)
      requires "mysterious_note" in inventory
      modifies hintSystem, this
      ensures Reply(o, Value()) == NoteUse(old(Value()))
    {
      hintSystem.noteUsed := hintSystem.noteUsed + 1;
      if hintSystem.noteUsed == 2 {
        inventory := RemoveFirst(inventory, "mysterious_note");
      }
      return HintActivated;
    }

    /** The event items of `use` (game.py:720-735). */
    method UseEventItem(item: string) returns (o: Outcome)
      modifies this
      ensures Reply(o, Value()) == EventUse(old(Value()), item)
    {
      var fired := false;
      if item == "graduation_gown" {
        fired := TriggerSpecialEvent(SocialEvent);
      } else if item == "teaching_plan" {
        fired := TriggerSpecialEvent(TeachingEvent);
      } else if item == "microscope_slides" {
        fired := TriggerSpecialEvent(NobelEvent);
      }
      if fired {
        return SpecialEvent;
      }
      fired := TriggerSpecialEvent(EngineeringEvent);
      if fired {
        return SpecialEvent;
      }
      return Continue;
    }

    /** `trigger_special_event` (game.py:443-465). */
    method TriggerSpecialEvent(e: Event) returns (fired: bool)
      modifies this
      ensures (Value(), fired) == Trigger(old(Value()), e)
    {
      var ready := match e
        case EngineeringEvent =>
          "mechanical_tools" in inventory && "circuit_board" in inventory && "engineering_drawing" in inventory
        case TeachingEvent => "teaching_plan" in inventory && location == "Education Building"
        case NobelEvent => "microscope_slides" in inventory && location == "Madsen Building"
        case SocialEvent => "graduation_gown" in inventory;
      if ready {
        AddAchievement(EventTag(e));
        return true;
      }
      return false;
    }

    /** `to_dict` (game.py:353-376). */
    method ToDict() returns (d: SaveData)
      ensures d == Encode(Value())
      ensures Decode(d) == Some(Value())
    {
      var names := set a | a in achievements :: Name(a);
      d := SaveData(location, inventory, gameStartTime, timeLimit, remainingHints, difficulty, requiredItems,
                    visited, score, names, puzzleSolved, steps, itemsCollected, startTime, endTime,
                    specialEvents, questProgress, HintData(hintSystem.currentHint, hintSystem.noteUsed),
                    hasEnteredCampus);
      DecodeEncode(Value());
    }

    /** A manager whose fields hold `v`. */
    constructor Restore(v: StateData)
      ensures Value() == v
      ensures fresh(hintSystem)
    {
      location := v.location;
      inventory := v.inventory;
      gameStartTime := v.gameStartTime;
      timeLimit := v.timeLimit;
      remainingHints := v.remainingHints;
      difficulty := v.difficulty;
      requiredItems := v.requiredItems;
      visited := v.visited;
      score := v.score;
      achievements := v.achievements;
      puzzleSolved := v.puzzleSolved;
      steps := v.steps;
      itemsCollected := v.itemsCollected;
      startTime := v.startTime;
      endTime := v.endTime;
      specialEvents := v.specialEvents;
      questProgress := v.questProgress;
      hintSystem := new HintSystem.Restore(v.hints.currentHint, v.hints.noteUsed);
      hasEnteredCampus := v.hasEnteredCampus;
    }

    /**
     * `from_dict` (game.py:378-404): a fresh manager with every field copied
     * from the snapshot, or nothing when an achievement name is unknown.  The
     * source fills a fresh manager field by field and drops it when the
     * achievement names fail to parse; here the names are parsed first and
     * the manager is built only from a snapshot that parses.
     */
    static method FromDict(d: SaveData) returns (r: Option<GameStateManager>)
      ensures r.None? <==> Decode(d).None?
      ensures r.Some? ==> fresh(r.value) && fresh(r.value.hintSystem) && r.value.Value() == Decode(d).value
    {
      var tags := ParseAll(d.achievements);
      if tags.None? {
        return None;
      }
      var v := StateData(d.playerLocation, d.playerInventory, d.gameStartTime, d.timeLimit, d.remainingHints,
                         d.difficulty, d.requiredItems, d.visitedLocations, d.gameScore, tags.value,
                         d.puzzleSolved, d.stepsTaken, d.itemsCollected, d.startTime, d.endTime,
                         d.specialEvents, d.questProgress,
                         HintState(d.hintSystem.currentHint, d.hintSystem.mysteriousNoteUsed),
                         d.hasEnteredCampus);
      assert tags.value == Decode(d).value.achievements;
      var s := new GameStateManager.Restore(v);
      return Some(s);
    }
  }

  /** `set(AchievementType(a) for a in names)`: fails at the first unknown name. */
  method ParseAll(names: set<string>) returns (r: Option<set<Achievement>>)
    ensures r.Some? <==> AllTags(names)
    ensures r.Some? ==> forall a :: a in r.value <==> Name(a) in names
  {
    var rest := names;
    var tags: set<Achievement> := {};
    while rest != {}
      invariant rest <= names
      invariant forall x :: x in names - rest ==> Parse(x).Some?
      invariant forall a :: a in tags <==> Name(a) in names - rest
      decreases rest
    {
      var x :| x in rest;
      var tag := Parse(x);
      if tag.None? {
        return None;
      }
      forall a ensures a in tags + {tag.value} <==> Name(a) in names - (rest - {x}) {
        NameInjective(a, tag.value);
      }
      tags := tags + {tag.value};
      rest := rest - {x};
    }
    return Some(tags);
  }

  class GameCommands {
    var state: GameStateManager
    var world: World

    /** The world the game is played in: every exit leads somewhere, and the entrance exists. */
    ghost predicate Valid()
      reads this
    {
      Closed(world) && Start in world
    }

    constructor(s: GameStateManager, w: World)
      requires Closed(w) && Start in w
      ensures state == s && world == w && Valid()
    {
      state := s;
      world := w;
    }

    /** `go` (game.py:507-528). */
    method Go(args: seq<string>) returns (o: Outcome)
      modifies state
      ensures Reply(o, state.Value()) == GoStep(world, old(state.Value()), args)
    {
      if args == [] {
        return Continue;
      }
      if state.location !in world {
        return Raised;
      }
      var exits := world[state.location].exits;
      if args[0] in exits {
        var next := exits[args[0]];
        if next !in world {
          return Raised;
        }
        if !CheckAccess(world[next], state.inventory) {
          return AccessDenied;
        }
        state.MoveTo(next);
      }
      return Continue;
    }

    /** `take` (game.py:535-564); `now` is the clock reading stored as the end time. */
    method Take(args: seq<string>, now: int) returns (o: Outcome)
      requires Valid()
      modifies this, state
      ensures Valid() && state == old(state)
      ensures Turn(o, world, state.Value()) == TakeStep(old(world), old(state.Value()), args, now)
    {
      if args == [] {
        return Continue;
      }
      if state.location !in world {
        return Raised;
      }
      var key := Lower(Underscores(JoinSpace(args)));
      var items := world[state.location].items;
      var found := FindItem(items, key);
      if found.None? || items[found.value] == "" {
        return Continue;
      }
      var item := items[found.value];
      TakeKeepsClosed(world, state.location, RemoveFirst(items, item));
      world := world[state.location := world[state.location].(items := RemoveFirst(items, item))];
      o := state.PickUp(item, now);
    }

    /** `use` (game.py:679-735). */
    method Use(args: seq<string>) returns (o: Outcome)
      modifies state, state.hintSystem
      ensures Reply(o, state.Value()) == UseStep(old(state.Value()), args)
    {
      if args == [] || args[0] !in state.inventory {
        return Continue;
      }
      var item := args[0];
      if item == "student_card" {
        o := state.ShowCard();
      } else if item == "mysterious_note" {
        o := state.ReadNote();
      } else if item == "cafeteria_menu" {
        o := Continue;
      } else {
        o := state.UseEventItem(item);
      }
    }

    /** `hint` (game.py:669-677). */
    method Hint() returns (o: Outcome)
      modifies state
      ensures Reply(o, state.Value()) == HintStep(old(state.Value()))
    {
      ghost var s := state.Value();
      if state.remainingHints <= 0 {
        return Continue;
      }
      state.remainingHints := state.remainingHints - 1;
      ghost var s1 := s.(remainingHints := s.remainingHints - 1);
      assert state.Value() == s1;
      var text := HintText(state.hintSystem.currentHint);
      if text.None? {
        assert HintStep(s) == Reply(Raised, s1);
        return Raised;
      }
      state.score := state.score - 50;
      assert state.Value() == s1.(score := s1.score - 50);
      assert HintStep(s) == Reply(Continue, s1.(score := s1.score - 50));
      return Continue;
    }

    /** `examine` (game.py:737-751): what it shows; it changes nothing. */
    method Examine(args: seq<string>) returns (r: Examined)
      ensures r == ExamineStep(world, state.Value(), args)
    {
      if args == [] {
        return NoArgument;
      }
      var item := args[0];
      if item !in state.inventory {
        return NotCarried;
      }
      if state.location !in world {
        return LocationUnknown;
      }
      var special := world[state.location].special;
      if item in special {
        return Described(special[item].description);
      }
      return NothingSpecial;
    }

    /** `difficulty` (game.py:616-637). */
    method Difficulty(args: seq<string>) returns (o: Outcome)
      modifies state
      ensures Reply(o, state.Value()) == DifficultyStep(old(state.Value()), args)
    {
      if args != [] {
        var name := Lower(args[0]);
        var level := LevelOf(name);
        if level.Some? {
          state.difficulty := name;
          state.timeLimit := level.value.timeLimit;
          state.remainingHints := level.value.hints;
        }
      }
      return Continue;
    }

    /** `save` (game.py:639-647): the file afterwards. */
    method Save() returns (f: SaveFile)
      ensures f == SaveStep(state.Value())
    {
      var d := state.ToDict();
      return Saved(d);
    }

    /**
     * `load` (game.py:649-667): replaces the state object with a fresh one
     * when the snapshot decodes; the old object is left as it was.
     */
    method Load(f: SaveFile) returns (report: LoadReport)
      modifies this
      ensures world == old(world)
      ensures (report, state.Value()) == LoadStep(world, old(state.Value()), f)
      ensures state != old(state) ==> fresh(state) && fresh(state.hintSystem)
    {
      match f
      case NoSave => return NoSaveFound;
      case Unreadable => return LoadFailed;
      case Undecodable => return Corrupted;
      case Saved(d) =>
        var loaded := GameStateManager.FromDict(d);
        if loaded.None? {
          return LoadFailed;
        }
        state := loaded.value;
        if state.location in world {
          return Loaded;
        }
        return LoadFailed;
    }

    /**
     * `map` (game.py:790-886): repairs the world first, then, only for a
     * player carrying the campus map, lays it out.
     */
    method ShowMap() returns (view: Option<MapView>)
      requires Valid()
      modifies this
      ensures Valid() && state == old(state)
      ensures Repaired(old(world), world)
      ensures view.Some? <==> "campus_map" in state.inventory
      ensures view.Some? ==> var coords := view.value.coords;
                && Start in coords && coords[Start] == (0, 0)
                && (forall x :: x in coords <==> Reaches(world, Start, x, true))
                && (forall x :: x in coords && x != Start ==> PlacedFrom(world, coords, x))
                && view.value.unconnected == Unconnected(world, coords)
    {
      world := EnsureAllLocationsConnected(world);
      if "campus_map" !in state.inventory {
        return None;
      }
      var coords := Layout(world);
      return Some(MapView(coords, world.Keys - coords.Keys));
    }

    /**
     * `process` (game.py:491-505): one line of input.  `now` is the clock
     * reading `take` stores; `f` is the save file before the command and
     * `f'` after it.
     */
    method Process(line: string, now: int, f: SaveFile) returns (o: Outcome, f': SaveFile)
      requires Valid()
      modifies this, state, state.hintSystem
      ensures Valid()
      ensures Words(line) != [] && Words(line)[0] == "map" ==>
                && o == Continue && f' == f && Repaired(old(world), world)
                && state == old(state) && state.Value() == old(state.Value())
      ensures Words(line) == [] || Words(line)[0] != "map" ==>
                (Turn(o, world, state.Value()), f') == Dispatch(old(world), old(state.Value()), f, line, now)
    {
      var words := Split(Lower(line));
      if words == [] {
        return Continue, f;
      }
      if words[0] == "map" {
        var _ := ShowMap();
        return Continue, f;
      }
      o, f' := Execute(words[0], words[1..], now, f);
    }

    /** The dispatch of `process` for every verb except `map`. */
    method Execute(verb: string, args: seq<string>, now: int, f: SaveFile) returns (o: Outcome, f': SaveFile)
      requires Valid() && verb != "map"
      modifies this, state, state.hintSystem
      ensures Valid()
      ensures (Turn(o, world, state.Value()), f') == Command(old(world), old(state.Value()), f, verb, args, now)
    {
      f' := f;
      if verb == "go" {
        o := Go(args);
      } else if verb == "look" {
        o := if state.location in world then Continue else Raised;
      } else if verb == "take" {
        o := Take(args, now);
      } else if verb == "quit" {
        o := Quit;
      } else if verb == "save" {
        o := Continue;
        f' := Save();
      } else if verb == "load" {
        var _ := Load(f);
        o := Continue;
      } else if verb == "examine" {
        var e := Examine(args);
        o := if e == LocationUnknown then Raised else Continue;
      } else {
        o := Answer(verb, args);
      }
    }

    /** The verbs of `process` that touch only the player's state. */
    method Answer(verb: string, args: seq<string>) returns (o: Outcome)
      requires Valid() && verb !in {"go", "look", "take", "quit", "save", "load", "examine", "map"}
      modifies state, state.hintSystem
      ensures Valid()
      ensures Reply(o, state.Value()) == Respond(old(state.Value()), verb, args)
    {
      if verb == "hint" {
        o := Hint();
      } else if verb == "use" {
        o := Use(args);
      } else if verb == "difficulty" {
        o := Difficulty(args);
      } else if verb == "stats" {
        o := if state.startTime.None? then Raised else Continue;
      } else if verb == "time" {
        o := if state.timeLimit > 0 && state.startTime.None? then Raised else Continue;
      } else {
        o := Continue;
      }
    }
  }
}
