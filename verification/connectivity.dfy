/**
 * `ensure_all_locations_connected` (game.py:1001-1032): compute the set of
 * locations reachable from the start once, by breadth-first search over all
 * exits, then give every unreachable location a two-way exit pair to some
 * reachable location that still has a free cardinal direction.
 *
 * Python iterates `unreachable` and `list(reachable)` in set order, which the
 * language leaves unspecified; the model picks both with `:|`, so everything
 * proved here holds whatever order the interpreter uses.
 */
module Connectivity {
  import opened Wrappers
  import opened WorldMap

  /** `available_dirs[0]`: the first of north, south, east, west not yet used as an exit. */
  function FirstFree(exits: map<string, string>): (r: Option<string>)
    ensures r.None? <==> forall d :: d in Directions ==> d in exits
    ensures r.Some? ==> r.value in Directions && r.value !in exits && Reverse(r.value) in Directions
    ensures r.Some? ==> forall i, j :: 0 <= i < j < |Directions| && Directions[j] == r.value ==> Directions[i] in exits
  {
    if "north" !in exits then Some("north")
    else if "south" !in exits then Some("south")
    else if "east" !in exits then Some("east")
    else if "west" !in exits then Some("west")
    else None
  }

  /** Step 1 of the repair: breadth-first search over every exit, from `start`. */
  method ReachableFrom(w: World, start: string) returns (reachable: set<string>)
    requires Closed(w) && start in w
    ensures reachable <= w.Keys
    ensures forall x :: x in reachable <==> Reaches(w, start, x, false)
  {
    var queue := [start];
    reachable := {};
    ReachesSelf(w, start, false);
    while queue != []
      invariant BfsInvariant(w, start, reachable, queue)
      decreases |w.Keys - reachable|, |queue|
    {
      var loc := queue[0];
      ghost var full := queue;
      queue := queue[1..];
      if loc in reachable {
        BfsSkip(w, start, reachable, full);
        continue;
      }
      assert loc in w;
      assert w.Keys - (reachable + {loc}) < w.Keys - reachable;
      ghost var old_reachable := reachable;
      reachable := reachable + {loc};
      queue := EnqueueTargets(w, loc, reachable, queue);
      BfsVisit(w, start, old_reachable, full, queue);
    }
    ClosedHoldsReach(w, start, reachable, false);
  }

  /** The invariant of the search loop. */
  ghost predicate BfsInvariant(w: World, start: string, reachable: set<string>, queue: seq<string>) {
    && reachable <= w.Keys
    && (forall q :: q in queue ==> q in w && Reaches(w, start, q, false))
    && (forall x :: x in reachable ==> Reaches(w, start, x, false))
    && (start in reachable || start in queue)
    && (forall x, t :: x in reachable && t in Targets(w, x, false) ==> t in reachable || t in queue)
  }

  /** Dequeuing a location already visited keeps the invariant. */
  lemma BfsSkip(w: World, start: string, reachable: set<string>, full: seq<string>)
    requires full != [] && full[0] in reachable
    requires BfsInvariant(w, start, reachable, full)
    ensures BfsInvariant(w, start, reachable, full[1..])
  {
    assert forall q :: q in full ==> q == full[0] || q in full[1..];
  }

  /** Visiting the dequeued location and queuing its exits keeps the invariant. */
  lemma BfsVisit(w: World, start: string, reachable: set<string>, full: seq<string>, queue: seq<string>)
    requires full != [] && full[0] !in reachable
    requires BfsInvariant(w, start, reachable, full)
    requires |full[1..]| <= |queue| && queue[..|full| - 1] == full[1..]
    requires forall i :: |full| - 1 <= i < |queue| ==> queue[i] in Targets(w, full[0], false) && queue[i] in w
    requires forall t :: t in Targets(w, full[0], false) ==> t in reachable + {full[0]} || t in queue
    ensures BfsInvariant(w, start, reachable + {full[0]}, queue)
  {
    var loc := full[0];
    var rest := full[1..];
    assert forall q :: q in full ==> q == loc || q in rest;
    assert forall q :: q in rest ==> q in queue by {
      forall q | q in rest ensures q in queue {
        var i :| 0 <= i < |rest| && rest[i] == q;
        assert queue[i] == q;
      }
    }
    forall q | q in queue ensures q in w && Reaches(w, start, q, false) {
      var i :| 0 <= i < |queue| && queue[i] == q;
      if i < |rest| {
        assert queue[i] == rest[i];
      } else {
        ReachesStep(w, start, loc, q, false);
      }
    }
  }

  /** `for dest in exits.values(): if dest not in reachable: queue.append(dest)`. */
  method EnqueueTargets(w: World, loc: string, reachable: set<string>, queue: seq<string>) returns (queue': seq<string>)
    requires loc in w && Closed(w)
    ensures |queue| <= |queue'| && queue'[..|queue|] == queue
    ensures forall i :: |queue| <= i < |queue'| ==> queue'[i] in Targets(w, loc, false) && queue'[i] in w
    ensures forall t :: t in Targets(w, loc, false) ==> t in reachable || t in queue'
  {
    var exits := w[loc].exits;
    var dirs := exits.Keys;
    queue' := queue;
    while dirs != {}
      invariant dirs <= exits.Keys
      invariant |queue| <= |queue'| && queue'[..|queue|] == queue
      invariant forall i :: |queue| <= i < |queue'| ==> queue'[i] in Targets(w, loc, false) && queue'[i] in w
      invariant forall d :: d in exits && d !in dirs ==> exits[d] in reachable || exits[d] in queue'
      decreases dirs
    {
      var d :| d in dirs;
      dirs := dirs - {d};
      var dest := exits[d];
      if dest !in reachable {
        queue' := queue' + [dest];
      }
    }
  }

  ghost predicate SubMap(a: map<string, string>, b: map<string, string>) {
    forall d :: d in a ==> d in b && b[d] == a[d]
  }

  /** `r` is reachable from the start by a path that never leaves `s`. */
  ghost predicate ReachesWithin(w: World, r: string, s: set<string>) {
    exists p :: IsPath(w, p, false) && p[0] == Start && p[|p| - 1] == r && forall i :: 0 <= i < |p| ==> p[i] in s
  }

  /** Exit `d` of `l` in `v` is new or leads elsewhere than it did in `w`. */
  ghost predicate Rewired(w: World, v: World, l: string, d: string) {
    l in w && l in v && d in v[l].exits && (d !in w[l].exits || v[l].exits[d] != w[l].exits[d])
  }

  /** Exit `d` of `l` is a cardinal direction whose target has the opposite exit back to `l`. */
  ghost predicate Paired(v: World, l: string, d: string) {
    && l in v && d in v[l].exits && d in Directions
    && var t := v[l].exits[d];
       t in v && Reverse(d) in v[t].exits && v[t].exits[Reverse(d)] == l
  }

  /**
   * What the repair guarantees about the world `v` it leaves, given the world
   * `w` it started from.
   */
  ghost predicate Repaired(w: World, v: World) {
    // the same locations, still closed; only exits change
    && v.Keys == w.Keys
    && Closed(v)
    && (forall l :: l in w ==> v[l] == w[l].(exits := v[l].exits))
    // every exit added is named by a cardinal direction
    && (forall l, d :: l in w && d in v[l].exits && d !in w[l].exits ==> d in Directions)
    // no exit is removed
    && (forall l :: l in w ==> w[l].exits.Keys <= v[l].exits.Keys)
    // an exit added or redirected is one half of a wiring: a cardinal
    // direction whose target has the opposite exit back
    && (forall l, d :: Rewired(w, v, l, d) ==> Paired(v, l, d))
    // the exits of a location reachable before are kept as they were
    && (forall l :: l in w && Reaches(w, Start, l, false) ==> SubMap(w[l].exits, v[l].exits))
    // what was reachable stays reachable
    && (forall l :: Reaches(w, Start, l, false) ==> Reaches(v, Start, l, false))
    // every location whose exits were rewired is reachable afterwards
    && (forall l :: l in w && v[l].exits != w[l].exits ==> Reaches(v, Start, l, false))
    // a location is left unreachable only when no location reachable before
    // has a free direction any more
    && ((exists l :: l in w && !Reaches(v, Start, l, false)) ==>
          forall r :: r in w && Reaches(w, Start, r, false) ==> FirstFree(v[r].exits).None?)
    // on a world where everything is reachable, nothing changes
    && ((forall l :: l in w ==> Reaches(w, Start, l, false)) ==> v == w)
  }

  /**
   * The repair only assigns cardinal exits: an exit with any other name, of
   * any location, reachable or not, is still there and leads where it did.
   */
  lemma RepairKeepsOtherExits(w: World, v: World, l: string, d: string)
    requires Repaired(w, v)
    requires l in w && d in w[l].exits && d !in Directions
    ensures d in v[l].exits && v[l].exits[d] == w[l].exits[d]
  {
    assert d in v[l].exits;
    if v[l].exits[d] != w[l].exits[d] {
      assert Rewired(w, v, l, d);
    }
  }

  /** One repair: exit `dir` of `node` now leads to `unloc`, and the opposite exit of `unloc` back to `node`. */
  function Wire(v: World, node: string, unloc: string, dir: string): (r: World)
    requires node in v && unloc in v
    ensures r.Keys == v.Keys
    ensures node != unloc ==> r[node] == v[node].(exits := v[node].exits[dir := unloc])
    ensures node != unloc ==> r[unloc] == v[unloc].(exits := v[unloc].exits[Reverse(dir) := node])
    ensures forall l :: l in v && l != node && l != unloc ==> r[l] == v[l]
  {
    var v1 := v[node := v[node].(exits := v[node].exits[dir := unloc])];
    v1[unloc := v1[unloc].(exits := v1[unloc].exits[Reverse(dir) := node])]
  }

  /** The repair pass. */
  method EnsureAllLocationsConnected(w: World) returns (v: World)
    requires Closed(w) && Start in w
    ensures Repaired(w, v)
  {
    var reachable := ReachableFrom(w, Start);
    ghost var r0 := reachable;
    var unreachable := w.Keys - reachable;
    ghost var todo := unreachable;
    ghost var failed: set<string> := {};
    v := w;
    RepairStart(w, r0);
    while unreachable != {}
      invariant RepairInvariant(w, r0, todo, v, reachable, unreachable, failed)
      decreases |unreachable|
    {
      var unloc :| unloc in unreachable;
      ghost var was := unreachable;
      unreachable := unreachable - {unloc};
      if exists node :: node in reachable && FirstFree(v[node].exits).Some? {
        var node :| node in reachable && FirstFree(v[node].exits).Some?;
        var dir := FirstFree(v[node].exits).value;
        ghost var before := v;
        v := Wire(v, node, unloc, dir);
        WireStep(w, r0, todo, before, v, reachable, was, failed, unloc, node, dir);
        reachable := reachable + {unloc};
      } else {
        FailStep(w, r0, todo, v, reachable, was, failed, unloc);
        failed := failed + {unloc};
      }
    }
    RepairDone(w, r0, todo, v, reachable, failed);
  }

  /**
   * The invariant of the repair loop: `reachable` is the set the source
   * keeps (the locations reachable before, `r0`, plus those wired so far),
   * `unreachable` what is left of `todo`, `failed` the locations for which
   * no reachable location had a free direction.
   */
  ghost predicate RepairInvariant(w: World, r0: set<string>, todo: set<string>, v: World,
                                  reachable: set<string>, unreachable: set<string>, failed: set<string>) {
    && RepairSets(w, r0, todo, reachable, unreachable, failed)
    && (v != w ==> unreachable != todo)
    && RepairShape(w, r0, v, reachable)
    && RepairPairs(w, v, reachable)
    && AllWithin(v, reachable)
    && (failed != {} ==> forall r :: r in reachable ==> FirstFree(v[r].exits).None?)
  }

  /** How the locations are split between the sets the repair keeps. */
  ghost predicate RepairSets(w: World, r0: set<string>, todo: set<string>,
                             reachable: set<string>, unreachable: set<string>, failed: set<string>) {
    && (forall x :: x in r0 <==> Reaches(w, Start, x, false))
    && todo == w.Keys - r0
    && r0 <= reachable <= w.Keys
    && unreachable <= todo && w.Keys == reachable + unreachable + failed
    && reachable !! unreachable && reachable !! failed && unreachable !! failed
  }

  /** Every location of `s` is reached from the start through `s` only. */
  ghost predicate AllWithin(v: World, s: set<string>) {
    forall r :: r in s ==> ReachesWithin(v, r, s)
  }

  /** How the world being repaired differs from the original so far. */
  ghost predicate RepairShape(w: World, r0: set<string>, v: World, reachable: set<string>) {
    && v.Keys == w.Keys && Closed(v)
    && (forall l :: l in w ==> v[l] == w[l].(exits := v[l].exits))
    && (forall l, d :: l in w && d in v[l].exits && d !in w[l].exits ==> d in Directions)
    && (forall l :: l in r0 && l in w ==> SubMap(w[l].exits, v[l].exits))
    && (forall l :: l in w && l !in reachable ==> v[l].exits == w[l].exits)
  }

  /**
   * No exit is lost, and every exit added or redirected so far is half of a
   * wiring that leads into the reachable part.
   */
  ghost predicate RepairPairs(w: World, v: World, reachable: set<string>) {
    && (forall l :: l in w ==> l in v && w[l].exits.Keys <= v[l].exits.Keys)
    && (forall l, d :: Rewired(w, v, l, d) ==> Paired(v, l, d) && v[l].exits[d] in reachable)
  }

  /** Wiring `unloc` to `node` through `dir` keeps the invariant. */
  lemma WireStep(w: World, r0: set<string>, todo: set<string>, before: World, after: World,
                 reachable: set<string>, unreachable: set<string>, failed: set<string>,
                 unloc: string, node: string, dir: string)
    requires RepairInvariant(w, r0, todo, before, reachable, unreachable, failed)
    requires unloc in unreachable && node in reachable
    requires FirstFree(before[node].exits) == Some(dir)
    requires after == Wire(before, node, unloc, dir)
    ensures RepairInvariant(w, r0, todo, after, reachable + {unloc}, unreachable - {unloc}, failed)
  {
    WireSets(w, r0, todo, reachable, unreachable, failed, unloc);
    WireKeepsPaths(before, after, reachable, node, unloc, dir);
    WireShape(w, r0, before, after, reachable, unloc, node, dir);
    WirePairs(w, before, after, reachable, unloc, node, dir);
  }

  /** The opposite of a cardinal direction is cardinal, and its opposite is the direction itself. */
  lemma ReverseInvolutive(d: string)
    requires d in Directions
    ensures Reverse(d) in Directions && Reverse(Reverse(d)) == d
  {
  }

  lemma WirePairs(w: World, before: World, after: World, reachable: set<string>,
                  unloc: string, node: string, dir: string)
    requires RepairPairs(w, before, reachable)
    requires unloc in w && unloc !in reachable && node in reachable && node in before && unloc in before
    requires forall l :: l in w && l !in reachable ==> before[l].exits == w[l].exits
    requires FirstFree(before[node].exits) == Some(dir)
    requires after == Wire(before, node, unloc, dir)
    ensures RepairPairs(w, after, reachable + {unloc})
  {
    ReverseInvolutive(dir);
    forall l, d | Rewired(w, after, l, d)
      ensures Paired(after, l, d) && after[l].exits[d] in reachable + {unloc}
    {
      if l == node && d == dir {
        assert after[unloc].exits[Reverse(dir)] == node;
      } else if l == unloc && d == Reverse(dir) {
        assert after[node].exits[dir] == unloc;
      } else {
        assert d in before[l].exits && after[l].exits[d] == before[l].exits[d];
        assert Rewired(w, before, l, d);
        var t := before[l].exits[d];
        assert t in reachable && t != unloc;
        if t == node {
          assert Reverse(d) != dir;
        }
        assert after[t].exits[Reverse(d)] == before[t].exits[Reverse(d)];
      }
    }
  }

  lemma WireSets(w: World, r0: set<string>, todo: set<string>,
                 reachable: set<string>, unreachable: set<string>, failed: set<string>, unloc: string)
    requires RepairSets(w, r0, todo, reachable, unreachable, failed)
    requires unloc in unreachable
    ensures RepairSets(w, r0, todo, reachable + {unloc}, unreachable - {unloc}, failed)
    ensures unloc in todo && unloc !in unreachable - {unloc}
  {
  }

  lemma WireShape(w: World, r0: set<string>, before: World, after: World, reachable: set<string>,
                  unloc: string, node: string, dir: string)
    requires RepairShape(w, r0, before, reachable)
    requires r0 <= reachable <= w.Keys && unloc in w && unloc !in reachable && node in reachable && node in w
    requires FirstFree(before[node].exits) == Some(dir)
    requires after == Wire(before, node, unloc, dir)
    ensures RepairShape(w, r0, after, reachable + {unloc})
  {
    forall a, d | a in after && d in after[a].exits ensures after[a].exits[d] in after {
      if a != node && a != unloc {
        assert after[a].exits == before[a].exits;
      }
    }
    forall l | l in r0 && l in w ensures SubMap(w[l].exits, after[l].exits) {
      assert SubMap(w[l].exits, before[l].exits);
      if l == node {
        assert dir !in w[l].exits;
      }
    }
    forall l | l in w ensures after[l] == w[l].(exits := after[l].exits) {
      assert before[l] == w[l].(exits := before[l].exits);
    }
    forall l, d | l in w && d in after[l].exits && d !in w[l].exits ensures d in Directions {
      if l == node && d == dir {
      } else if l == unloc && d == Reverse(dir) {
      } else {
        assert d in before[l].exits;
      }
    }
    forall l | l in w && l !in reachable + {unloc} ensures after[l].exits == w[l].exits {
      assert after[l] == before[l];
    }
  }

  /** Leaving `unloc` unwired, when no reachable location has a free direction, keeps the invariant. */
  lemma FailStep(w: World, r0: set<string>, todo: set<string>, v: World,
                 reachable: set<string>, unreachable: set<string>, failed: set<string>, unloc: string)
    requires RepairInvariant(w, r0, todo, v, reachable, unreachable, failed)
    requires unloc in unreachable
    requires forall node :: node in reachable ==> FirstFree(v[node].exits).None?
    ensures RepairInvariant(w, r0, todo, v, reachable, unreachable - {unloc}, failed + {unloc})
  {
  }

  /** When nothing is left to wire, the invariant gives the repair's guarantees. */
  lemma RepairDone(w: World, r0: set<string>, todo: set<string>, v: World,
                   reachable: set<string>, failed: set<string>)
    requires RepairInvariant(w, r0, todo, v, reachable, {}, failed)
    ensures Repaired(w, v)
  {
    forall l | l in reachable ensures Reaches(v, Start, l, false) {
      var p :| IsPath(v, p, false) && p[0] == Start && p[|p| - 1] == l && forall i :: 0 <= i < |p| ==> p[i] in reachable;
    }
  }

  /** The invariant holds before the first location is wired. */
  lemma RepairStart(w: World, r0: set<string>)
    requires Closed(w) && r0 <= w.Keys
    requires forall x :: x in r0 <==> Reaches(w, Start, x, false)
    ensures RepairInvariant(w, r0, w.Keys - r0, w, r0, w.Keys - r0, {})
  {
    InitiallyWithin(w, r0);
  }

  /** Before the repair, every reachable location is reached through reachable ones only. */
  lemma InitiallyWithin(w: World, r0: set<string>)
    requires forall x :: x in r0 <==> Reaches(w, Start, x, false)
    ensures AllWithin(w, r0)
  {
    forall r | r in r0 ensures ReachesWithin(w, r, r0) {
      var p :| IsPath(w, p, false) && p[0] == Start && p[|p| - 1] == r;
      forall i | 0 <= i < |p| ensures p[i] in r0 {
        var q := p[..i + 1];
        assert IsPath(w, q, false);
      }
    }
  }

  /**
   * Wiring `node` (reachable, direction `dir` free) to `unloc` (not yet
   * reachable) keeps every path through reachable locations and adds one to
   * `unloc`.
   */
  lemma WireKeepsPaths(before: World, after: World, s: set<string>, node: string, unloc: string, dir: string)
    requires node in s && unloc !in s && node in before && unloc in before
    requires dir !in before[node].exits
    requires after == Wire(before, node, unloc, dir)
    requires AllWithin(before, s)
    ensures AllWithin(after, s + {unloc})
  {
    forall x | x in s ensures Targets(before, x, false) <= Targets(after, x, false) {
      if x in before {
        forall t | t in Targets(before, x, false) ensures t in Targets(after, x, false) {
          var d :| d in before[x].exits && before[x].exits[d] == t;
          assert d in after[x].exits && after[x].exits[d] == t;
        }
      }
    }
    forall r | r in s ensures ReachesWithin(after, r, s + {unloc}) {
      var p :| IsPath(before, p, false) && p[0] == Start && p[|p| - 1] == r && forall i :: 0 <= i < |p| ==> p[i] in s;
      assert IsPath(after, p, false);
    }
    var p :| IsPath(before, p, false) && p[0] == Start && p[|p| - 1] == node && forall i :: 0 <= i < |p| ==> p[i] in s;
    assert IsPath(after, p, false);
    assert unloc in Targets(after, node, false) by {
      assert after[node].exits[dir] == unloc;
    }
    var q := p + [unloc];
    assert IsPath(after, q, false);
    assert forall i :: 0 <= i < |q| ==> q[i] in s + {unloc};
  }
}
