# Campus Treasure Hunt in Dafny

A model of the game engine of *Campus Treasure Hunt* (`game.py`). It is a
text adventure on the University of Sydney campus: the player walks between
locations, picks up items, uses them, buys hints and earns achievements, and
wins by finding the lost COMP9001 notes in Fisher Library.

The model has a pure value layer and an imperative layer. The imperative
layer proves each of its methods equal to a function of the value layer.

- `wrappers.dfy` (`Wrappers`): `Option`.
- `text.dfy` (`Text`): the string handling the game does.
  - `lower()` on ASCII letters.
  - `replace('_', ' ')`.
  - `split()` on Python's whitespace characters, and `" ".join`.
  - `ljust`.
- `world.dfy` (`WorldMap`): the world graph `map_data`.
  - Each location has exits, an ordered item list, item metadata and an
    optional access gate.
  - The access gate check.
  - Paths and reachability.
  - The count of items still lying in the world.
  - The first-match item lookup of `take`, and the removal of that item.
- `progress.dfy` (`Progress`): the player's progress as a record (`StateData`)
  and the pure operations on it.
  - Achievements and their names.
  - Difficulty levels and the three hints.
  - `add_achievement` and the achievement sweep.
  - The contextual (special-event) achievements.
  - The save snapshot (`to_dict` / `from_dict`).
- `commands.dfy` (`Commands`): every command handler as a function from
  (world, state, arguments) to an outcome and the new state. Also the
  dispatch of a typed line.
- `connectivity.dfy` (`Connectivity`): `ensure_all_locations_connected`.
  - A breadth-first search for the locations reachable from the entrance.
  - The loop that wires each unreachable location to a free N/S/E/W slot.
- `campusmap.dfy` (`CampusMap`): the coordinate layout of `show_map`. It is a
  breadth-first search over N/S/E/W exits, where the first coordinate
  assigned wins. Also the unconnected set, cell grouping and the fixed-width
  cells.
- `engine.dfy` (`Engine`): the objects of the source, whose methods update
  fields in place.
  - `HintSystem`.
  - `GameStateManager`, with a `Value()` view onto a `StateData`.
  - `GameCommands`, which holds the player's state object and the world.
- `campus.dfy` (`Campus`): three locations of the real campus. Two plays on
  them:
  - The guard refuses entry without a student card.
  - The shortest winning game.

Outcomes are the source's `GameState` values plus one more, `Raised`. A
handler answers `Raised` where the source would let an exception escape:
- a `KeyError` for an unknown location or hint index;
- a `TypeError` on a missing start time.

Python's iteration order over sets and dictionaries is not fixed by the
model. The loops pick the next element with `:|`, so what is proved holds
for every order.

## Model

| member | source | states |
|---|---|---|
| Text.Lower | game.py:493 | the lowered line has the same length; no upper-case ASCII letter is left; every other character stays where it was |
| Text.LowerIdempotent | game.py:493 | lowering an already lowered line changes nothing |
| Text.Underscores | game.py:541 | same length; no `_` is left, each having become a space; every other character stays where it was |
| Text.LowerUnderscoresCommute | game.py:541-546 | lowering and replacing underscores commute, so the typed name (replaced, then lowered) and the item names (lowered, then replaced) are keyed alike |
| Text.Split | game.py:494 | the words are non-empty and hold no whitespace; concatenated, they are the line with its whitespace removed |
| Text.SplitRun | game.py:494 | the first word is a maximal run: after leading whitespace, a whitespace-free run that ends the line or meets whitespace is the first word, and splitting continues after it |
| Text.SplitJoin | game.py:494 | splitting words joined by single spaces gives back the words |
| Text.LeftJustify | game.py:865 | `ljust`: pads to the width and keeps the text as a prefix; a longer text is unchanged |
| WorldMap.CheckAccess | game.py:433-441 | access is granted iff the location has no gate or every item the gate requires is carried |
| WorldMap.Held | game.py:436-440 | the loop over required items succeeds iff each of them is in the inventory |
| WorldMap.FirstMatch | game.py:544-548 | the index found is the first whose lowered, underscore-free name equals the key; None iff no item matches |
| WorldMap.FindItem | game.py:544-548 | the search loop returns exactly the first match |
| WorldMap.RemoveFirst | game.py:551 | `list.remove` removes one occurrence: the multiset loses exactly that item |
| WorldMap.RemoveFirstAt | game.py:544-551 | removing the first match's value removes exactly that index |
| WorldMap.TakeFrom | game.py:551 | taking changes only the items of the player's location, by one removal |
| WorldMap.TakeLowersTotal | game.py:419 | after a take, the number of items lying in the world is one lower |
| WorldMap.TakeKeepsClosed | game.py:551 | removing items keeps every exit leading to a location |
| Progress.Parse | game.py:393 | `AchievementType(name)` succeeds exactly on the fifteen tag names and gives back the tag with that name |
| Progress.ParseName | game.py:30-45 | every tag's name parses back to the tag |
| Progress.NameInjective | game.py:30-45 | no two tags share a name |
| Progress.LevelOf | game.py:13-17 | only easy, normal and hard are levels; each has a non-negative time limit and 1 to 3 hints |
| Progress.HintText | game.py:313-322 | a hint exists exactly for indices 1 to 3 |
| Progress.Advance | game.py:324-328 | `advance_hint` advances iff the index is below 3, and an index in 1..3 stays there |
| Progress.AdvanceStaysInRange | game.py:324-328 | k advances from an index in 1..3 reach min(index + k, 3) |
| Progress.NewState | game.py:332-351 | a new game starts at the entrance with nothing visited, carried or earned, normal difficulty, hint 1 and note counter 0 |
| Progress.Award | game.py:406-410 | the tag is held afterwards; a new tag adds exactly 100 points; a held tag changes nothing; no other field changes |
| Progress.AwardIdempotent | game.py:406-410 | awarding a tag twice is awarding it once |
| Progress.AwardCommutes | game.py:406-410 | two awards commute |
| Progress.TimeTaken | game.py:424-425 | the time check raises iff there is a time limit and a non-zero end time but no start time |
| Progress.AwardIf | game.py:414-421 | a check awards its tag exactly when its condition holds, at 100 points for a new tag, and changes nothing else |
| Progress.SweepFinish | game.py:423-431 | the time and hint checks add at most COMPLETED_UNDER_TIME and NO_HINTS_USED, at 100 points each; they complete iff neither the time check nor the level lookup raises |
| Progress.SweepStart | game.py:414-420 | the first two checks add at most VISITED_ALL_LOCATIONS and COLLECTED_ALL_ITEMS, at 100 points each; COLLECTED_ALL_ITEMS is held afterwards iff it was held or the given condition holds; nothing else changes |
| Progress.SweepState | game.py:412-431 | the sweep only adds tags, and only the four it checks; the score rises by 100 per new tag; no other field changes; it completes iff neither the time check nor the level lookup raises |
| Progress.SweepAwards | game.py:412-431 | each of the four tags is held afterwards iff it was held or its condition holds: every location visited; as many items collected as still lie in the world (as written, see Findings); time under the limit; hints left equal to the level's allotment |
| Progress.SweepWith | game.py:412-431 | a sweep whose items-collected condition is given: the sweep properties hold, and COLLECTED_ALL_ITEMS is held afterwards iff it was held or the condition holds |
| Progress.SweepCorrected | game.py:418-420 | the sweep with the corrected condition: COLLECTED_ALL_ITEMS is held afterwards iff it was held or no item is left lying in the world |
| Progress.SweepIdempotent | game.py:412-431 | a second completed sweep awards nothing more |
| Progress.Trigger | game.py:443-465 | an event fires iff its items are carried (and the player is at its place); firing awards its tag; otherwise nothing changes |
| Progress.Encode | game.py:353-376 | the snapshot lists a tag name iff the tag is held, and every name in it parses |
| Progress.Tags | game.py:393 | the tags read back are exactly those whose names are listed |
| Progress.ParseNames | game.py:30-45 | every tag's name parses back to the tag |
| Progress.Decode | game.py:380-404 | reading a snapshot succeeds iff every achievement name parses; the tags held are exactly those named |
| Progress.DecodeEncode | game.py:353-404 | reading back a saved snapshot restores every field of the state |
| Progress.EncodeDecode | game.py:353-404 | saving a state read from a snapshot gives the snapshot back |
| Commands.GoStep | game.py:507-528 | a move through an exit whose target admits the player sets the location, adds it to visited, adds 10 points and 1 step; a closed gate answers AccessDenied; a missing direction, or one the current location has no exit for, leaves the state unchanged |
| Commands.GoOnlyMoves | game.py:507-528 | any change of state is a move to the location the typed exit leads to, which is in the world, with exactly the updates of `Moved` |
| Commands.LookStep | game.py:530-533 | look changes nothing and raises only for a location missing from the world |
| Commands.TakeStep | game.py:535-564 | a non-empty item matching the typed name is taken: the first such item leaves the location (`TakeFrom`) and the state changes as `Pocket` says; no match changes nothing; taking the notes wins |
| Commands.TakeKeyIsItemKey | game.py:541-546 | the key of the typed words is the item key of the words joined by spaces |
| Commands.TakeByName | game.py:541-551 | typing an item's own name takes that item when no earlier item at the location has the same key |
| Commands.Pocket | game.py:552-562 | a taken item is appended to the inventory for 20 points and one more item collected, and nothing else changes; the notes also award FOUND_NOTES and set the end time |
| Commands.TakeKeepsTally | game.py:535-564 | a take keeps the items collected plus the items lying in the world constant |
| Commands.HalfwayAward | game.py:418-420 | as written, the items-collected check is met after one take in a world of two items, while one item still lies there |
| Commands.CollectedAllIntended | game.py:418-420 | with the corrected check, a game that started with a given number of items earns COLLECTED_ALL_ITEMS exactly when that many were collected |
| Commands.TakeMovesOneItem | game.py:535-564 | a take conserves the items at the location plus those carried, lowers the world's item count by one, and scores 20 (plus 100 for a first FOUND_NOTES) |
| Commands.UseStep | game.py:679-735 | using an item not carried changes nothing; the card, the note, the menu and the other items each go to their own branch, and the menu changes nothing; only the note answers HintActivated; use never touches the hint quota, hint index or location, and never lowers the score or removes achievements |
| Commands.EventUse | game.py:720-735 | the item's own event is awarded when it fires; otherwise the engineering event is awarded when it fires; otherwise nothing changes |
| Commands.OwnEventFirst | game.py:720-735 | when an item's own event fires, that use does not award ENGINEERING_MASTER |
| Commands.StudentCardOnce | game.py:690-700 | the first use of the card enters the campus and awards ENTERED_CAMPUS; a second use changes nothing |
| Commands.NoteSequence | game.py:701-712 | the note stays after its first use and is removed after the second; both answer HintActivated and leave the hint quota and index alone |
| Commands.HintStep | game.py:669-677 | with hints left, the quota drops by 1 and the score by 50; the hint index never changes; with none left, nothing changes |
| Commands.HintNeverAdvances | game.py:669-677 | no command except load changes the selected hint, so hint shows the same text every time |
| Commands.HintQuota | game.py:669-677 | k hint commands use min(k, quota) hints at 50 points each and leave the hint index alone |
| Commands.ExamineStep | game.py:737-751 | a carried item is described from the metadata of the current location; the other cases are told apart |
| Commands.DifficultyStep | game.py:616-637 | a known level sets the difficulty, time limit and hint quota from the level table; the score is never touched; an unknown or missing level changes nothing |
| Commands.DifficultyThenSweep | game.py:626-630 | right after a difficulty change, a completed sweep awards NO_HINTS_USED |
| Commands.SaveStep | game.py:639-647 | the save file holds a snapshot that reads back to the state |
| Commands.LoadStep | game.py:649-667 | a readable snapshot replaces the state; a missing, corrupt or unreadable file, or an unknown tag, leaves it in place; each case has its own report |
| Commands.SaveThenLoad | game.py:639-667 | loading what was saved restores the saved state |
| Commands.LoadUnknownTag | game.py:649-667 | a snapshot naming an unknown achievement fails to load and leaves the state alone |
| Commands.StatsStep | game.py:768-775 | stats raises exactly when the start time is missing |
| Commands.TimeStep | game.py:777-788 | time raises exactly when there is a time limit and no start time; otherwise it answers Continue |
| Commands.TimeLeft | game.py:777-788 | without a time limit, time shows "no limit"; with one, the seconds left while they are positive, else "time's up"; a missing start time raises |
| Commands.TimeStepShows | game.py:777-788 | time raises exactly when it has nothing to show |
| Commands.TimeRunsDown | game.py:779-785 | a later clock reading never shows more seconds left, and once the time is up it stays up |
| Commands.Words | game.py:493-494 | the words of a line are non-empty and hold no whitespace |
| Commands.Command | game.py:500-505 | an unknown verb changes nothing; only take changes the world, only save writes the file, only go, take, use, hint, difficulty and load change the state; Quit iff the verb is quit; Win only from take; examine changes nothing and raises exactly for a carried item at a location missing from the world |
| Commands.Respond | game.py:500-502 | of hint, use, difficulty, stats and time, only the first three change the state; none of them quits or wins; any other verb given here changes nothing |
| Commands.Dispatch | game.py:491-505 | empty input or an unknown verb changes nothing; only take changes the world, only save writes the file, and only go, take, use, hint, difficulty and load change the state; Quit iff the verb is quit; examine changes nothing and raises exactly for a carried item at a location missing from the world |
| Connectivity.FirstFree | game.py:1023-1026 | the slot chosen is the first of north, south, east, west that is free; None iff all four are taken |
| Connectivity.ReachableFrom | game.py:1007-1016 | the search returns exactly the locations reachable from the start |
| Connectivity.Wire | game.py:1027-1030 | wiring sets one exit of the node and the reverse exit of the wired location, and changes no other location |
| Connectivity.EnsureAllLocationsConnected | game.py:1001-1032 | only exits change and none is removed; a new exit of a reachable location takes a free N/S/E/W slot, while the wired location's reverse exit is set and may overwrite one it already had; every exit added or redirected is a cardinal direction whose target has the opposite exit back; existing exits of locations reachable before never change; every wired location becomes reachable; a location stays unreachable only when every reachable location is full; an already connected map is left as it is |
| Connectivity.RepairKeepsOtherExits | game.py:1027-1030 | the repair assigns only cardinal exits, so every other exit of every location is kept and leads where it did |
| CampusMap.Delta | game.py:799-804 | each direction moves one cell along one axis |
| CampusMap.Layout | game.py:806-832 | the entrance is at (0, 0); exactly the locations reachable over N/S/E/W exits get a cell; every other placed location sits one step from a placed neighbour that has an exit to it |
| CampusMap.PlaceNeighbours | game.py:820-832 | the cells already assigned never change; each new cell is one step from the current location in the direction of its exit; every N/S/E/W target ends up placed and queued |
| CampusMap.Unconnected | game.py:834-836 | the unconnected locations are those of the world without a cell |
| CampusMap.Occupants | game.py:838-841 | the locations grouped in a cell are exactly those placed on it |
| CampusMap.GridCell | game.py:850-866 | a grid cell is exactly 20 characters, bracketed, with the marker at the end when the player is there; a long label is cut and ends in "..." |
| CampusMap.ListCell | game.py:880-883 | a cell of the unconnected row is exactly 20 characters, bracketed, with the cut label and the marker |
| CampusMap.ListRow | game.py:878-884 | the unconnected row is the cells side by side, 20 characters each |
| Engine.HintSystem.constructor | game.py:312-319 | a new hint system is at hint 1 with the note unused |
| Engine.HintSystem.AdvanceHint | game.py:324-328 | the method updates the index as `Advance` says and leaves the note counter alone |
| Engine.CountItems | game.py:419 | the loop counts every item lying in the world |
| Engine.GameStateManager.constructor | game.py:332-351 | a new manager holds the new-game state |
| Engine.GameStateManager.AddAchievement | game.py:406-410 | the fields are updated as `Award` says |
| Engine.GameStateManager.CheckAchievements | game.py:412-431 | the fields are updated as the sweep says, with the items-collected check as written, and the result reports whether it completed |
| Engine.GameStateManager.FinishChecks | game.py:422-431 | the time check and the hint check update the fields as the end of the sweep says |
| Engine.GameStateManager.MoveTo | game.py:518-522 | a move updates the fields exactly as `Moved` says: the location, the visited set, 10 points and one step |
| Engine.GameStateManager.PickUp | game.py:552-562 | the fields change as `Pocket` says, and the answer is Win exactly for the notes |
| Engine.GameStateManager.ShowCard | game.py:690-700 | the fields change as `CardUse` says: the first showing enters the campus and awards ENTERED_CAMPUS |
| Engine.GameStateManager.ReadNote | game.py:701-712 | the note counter and the inventory change as `NoteUse` says |
| Engine.GameStateManager.UseEventItem | game.py:720-735 | the item's own event is tried first, then the engineering event, as `EventUse` says |
| Engine.GameStateManager.TriggerSpecialEvent | game.py:443-465 | fires and updates the fields as `Trigger` says |
| Engine.GameStateManager.ToDict | game.py:353-376 | the snapshot is the encoding of the fields and reads back to them |
| Engine.GameStateManager.FromDict | game.py:380-404 | fails iff a name does not parse; otherwise a fresh manager holds the decoded state |
| Engine.ParseAll | game.py:393 | the loop parses every name or fails iff one is unknown; the tags are exactly those named |
| Engine.GameCommands.constructor | game.py:469-489 | the commands hold the given state object and world |
| Engine.GameCommands.Go | game.py:507-528 | the state object changes as `GoStep` says |
| Engine.GameCommands.Take | game.py:535-564 | the world and the state object change as `TakeStep` says, and every exit still leads to a location |
| Engine.GameCommands.Use | game.py:679-735 | the state object and its hint system change as `UseStep` says |
| Engine.GameCommands.Hint | game.py:669-677 | the state object changes as `HintStep` says |
| Engine.GameCommands.Examine | game.py:737-751 | the answer is `ExamineStep`'s |
| Engine.GameCommands.Difficulty | game.py:616-637 | the state object changes as `DifficultyStep` says |
| Engine.GameCommands.Save | game.py:639-647 | the file written is `SaveStep`'s |
| Engine.GameCommands.Load | game.py:649-667 | the state object is replaced by a fresh one exactly as `LoadStep` says; the world is untouched |
| Engine.GameCommands.ShowMap | game.py:790-886 | the map is repaired first, even without a campus map; a view exists iff the campus map is carried, and it holds the layout of the repaired world and the unconnected locations |
| Engine.GameCommands.Process | game.py:491-505 | `map` repairs the world and leaves the state alone; every other line acts as `Dispatch` says |
| Engine.GameCommands.Execute | game.py:500-502 | every verb except `map`, examine included, acts on the world, the state object and the file as `Command` says |
| Engine.GameCommands.Answer | game.py:500-502 | the verbs that touch only the state object act as `Respond` says |
| Campus.Excerpt | game.py:57-146 | the entrance, the Quadrangle and Fisher Library as the campus has them |
| Campus.GateRefuses | game.py:74-96 | without a student card, going north from the entrance is refused and changes nothing |
| Campus.NotesKey | game.py:541-546 | typing `comp9001 notes` matches the item `COMP9001 notes` |
| Campus.WestToLibrary | game.py:57-146 | west from the entrance enters Fisher Library, which has no gate |
| Campus.TakeNotes | game.py:535-564 | in Fisher Library, `take comp9001 notes` wins and pockets the notes as `Pocket` says |
| Campus.NotesFromEmptyHands | game.py:552-562 | pocketing the notes with nothing carried wins with only the notes carried, only FOUND_NOTES held and 120 more points |
| Campus.ShortestGame | game.py:535-564 | west, then `take comp9001 notes`, wins with the notes carried, FOUND_NOTES awarded and 130 points |

## Findings

| source | as written | input that shows it | evidently intended | confidence | as-written member | corrected member |
|---|---|---|---|---|---|---|
| game.py:418-420 | COLLECTED_ALL_ITEMS is awarded when `items_collected` equals the number of items still lying in the locations, and every take lowers that number | a world of two items: after one take, one item has been collected and one still lies, so the check is met | the tag is awarded once every item placed in the world has been collected, which is when no item is left lying | high; not executed | Commands.HalfwayAward | Commands.CollectedAllIntended |

The sweep (`Progress.SweepState`, `Engine.GameStateManager.CheckAchievements`)
keeps the check as written (`Progress.CollectedAllAsWritten`).
`Progress.SweepCorrected` is the same sweep with the corrected check.
`Commands.CollectedAllIntended` proves the intended property about it.

## Left out

- Console output is not modelled: `print`, `display_location`, the welcome
  screen, `help`, `inventory`, `score` and `achievements`, the cafeteria menu
  text, and the denial messages. None of it changes state. Location
  descriptions are printed only, so they are not part of the model.
- File I/O is not modelled. `save` produces a `SaveFile` value and `load`
  reads one. A failure to write the file is not modelled. In the source,
  `open(SAVE_FILE, 'w')` empties the old save before `json.dump` writes, so a
  failed write can leave a truncated file, which a later `load` reports as
  corrupt.
- JSON types are not modelled. The snapshot is a typed record, so a
  snapshot with missing keys or wrongly typed values does not arise. Only an
  unknown achievement name makes reading fail.
- Snapshot lists (visited locations, achievement names, special events)
  are sets. `from_dict` turns them back into sets anyway.
- The wall clock (`time.time()`) is an integer parameter (`now`) or a stored
  integer. Floating-point time and `int(...)` truncation in `stats` and
  `time` are not modelled, because they only print.
- Commands.TimeLeft: the seconds left are whole seconds, so `int(...)` of a
  fractional remainder is not modelled.
- `score_multiplier` is not modelled, because no score uses it.
- `lower()` is modelled for ASCII letters only.
- `game_loop` and `initialize_game` are not modelled. They are the
  interactive driver: input, the time-out check, and the sweep after every
  command on the object the loop holds (which `load` does not replace).
  `required_items` and `quest_progress` are carried and saved but never
  used.
- `show_map` rendering: how the grid is put together (the bounding box,
  joining names sharing a cell with `/`, row printing) and the sorting of
  unconnected locations are left out. The cells themselves and the row of
  unconnected locations are modelled.
- The `processed_for_bfs` set of `show_map` is merged into `coords`. Both
  always hold the same names, so its `elif` branch never runs.
- Connectivity.EnsureAllLocationsConnected: it requires the entrance to be
  in the world and every exit to lead to a location. Otherwise the source's
  first search raises `KeyError`. The campus map satisfies both.
- CampusMap.Layout: it requires the entrance to be in the world. The source
  prints an error and returns when it is not.
- Commands.Dispatch: it does not cover `map`, which calls the repair method.
  `Engine.GameCommands.Process` handles `map` itself.
- Commands.Command: it does not cover `map` either, for the same reason.
- The full nineteen-location campus map is not modelled. The end-to-end
  plays use its three locations on the shortest path.
