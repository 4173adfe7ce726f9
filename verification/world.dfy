/**
 * The world graph (`map_data`): a map from location name to a location
 * record with its exits, the items lying there, per-item metadata and an
 * optional access gate.  Also the graph notions (paths, reachability) the
 * connectivity repair and the map layout are specified with, the item count
 * the achievement sweep compares against, and the item lookup of `take`.
 */
module WorldMap {
  import opened Wrappers
  import opened Text

  datatype ItemType = Access | Info | Collectible | Fun | Quest

  /** One entry of a location's `SPECIAL` table. */
  datatype ItemInfo = ItemInfo(description: string, required: bool, usage: string, kind: Option<ItemType>)

  /** A location's `ACCESS_CONTROL` entry. */
  datatype AccessControl = AccessControl(requiredItems: seq<string>, deniedMessage: string)

  /**
   * A location.  Its `DESCRIPTION` text is only ever printed and is not part
   * of the model.
   */
  datatype Location = Location(
    exits: map<string, string>,
    items: seq<string>,
    special: map<string, ItemInfo>,
    access: Option<AccessControl>)

  type World = map<string, Location>

  /** Where the player starts and where every traversal starts. */
  const Start: string := "University Entrance"

  /** The four cardinal directions, in the order the repair tries them. */
  const Directions: seq<string> := ["north", "south", "east", "west"]

  function Reverse(d: string): string {
    if d == "north" then "south"
    else if d == "south" then "north"
    else if d == "east" then "west"
    else "east"
  }

  /** Every exit leads to a location of the world. */
  ghost predicate Closed(w: World) {
    forall a, d :: a in w && d in w[a].exits ==> w[a].exits[d] in w
  }

  // ---------------------------------------------------------------------
  // Access gate (`check_access`)

  /** Every item of `required` is in `inventory`. */
  function Held(required: seq<string>, inventory: seq<string>): (ok: bool)
    ensures ok <==> forall i :: 0 <= i < |required| ==> required[i] in inventory
  {
    if required == [] then true
    else if required[0] !in inventory then false
    else Held(required[1..], inventory)
  }

  /**
   * `check_access`: entry is allowed when the location has no gate or when
   * every item the gate names is carried; a partial match is refused.
   */
  function CheckAccess(l: Location, inventory: seq<string>): (ok: bool)
    ensures ok <==> (l.access.None? || forall item :: item in l.access.value.requiredItems ==> item in inventory)
  {
    match l.access
    case None => true
    case Some(gate) => Held(gate.requiredItems, inventory)
  }

  // ---------------------------------------------------------------------
  // Paths and reachability

  /**
   * The locations one exit of `a` leads to; with `cardinalOnly`, only the
   * exits named north, south, east or west count.  A name that is not a
   * location has no exits.
   */
  function Targets(w: World, a: string, cardinalOnly: bool): set<string> {
    if a in w then (set d | d in w[a].exits && (!cardinalOnly || d in Directions) :: w[a].exits[d]) else {}
  }

  ghost predicate IsPath(w: World, p: seq<string>, cardinalOnly: bool) {
    |p| > 0 && forall i :: 0 <= i < |p| - 1 ==> p[i + 1] in Targets(w, p[i], cardinalOnly)
  }

  ghost predicate Reaches(w: World, from: string, to: string, cardinalOnly: bool) {
    exists p :: IsPath(w, p, cardinalOnly) && p[0] == from && p[|p| - 1] == to
  }

  lemma ReachesSelf(w: World, a: string, cardinalOnly: bool)
    ensures Reaches(w, a, a, cardinalOnly)
  {
    assert IsPath(w, [a], cardinalOnly);
  }

  lemma ReachesStep(w: World, from: string, a: string, b: string, cardinalOnly: bool)
    requires Reaches(w, from, a, cardinalOnly) && b in Targets(w, a, cardinalOnly)
    ensures Reaches(w, from, b, cardinalOnly)
  {
    var p :| IsPath(w, p, cardinalOnly) && p[0] == from && p[|p| - 1] == a;
    var q := p + [b];
    assert IsPath(w, q, cardinalOnly);
  }

  /** A path that starts inside a set closed under exits stays inside it. */
  lemma {:induction false} PathStaysIn(w: World, p: seq<string>, s: set<string>, cardinalOnly: bool)
    requires IsPath(w, p, cardinalOnly) && p[0] in s
    requires forall x :: x in s ==> Targets(w, x, cardinalOnly) <= s
    ensures forall i :: 0 <= i < |p| ==> p[i] in s
  {
    if |p| > 1 {
      var init := p[..|p| - 1];
      assert IsPath(w, init, cardinalOnly);
      PathStaysIn(w, init, s, cardinalOnly);
      assert p[|p| - 2] == init[|p| - 2];
    }
  }

  /** A set that holds `from` and is closed under exits holds all `from` reaches. */
  lemma ClosedHoldsReach(w: World, from: string, s: set<string>, cardinalOnly: bool)
    requires from in s
    requires forall x :: x in s ==> Targets(w, x, cardinalOnly) <= s
    ensures forall x :: Reaches(w, from, x, cardinalOnly) ==> x in s
  {
    forall x | Reaches(w, from, x, cardinalOnly) ensures x in s {
      var p :| IsPath(w, p, cardinalOnly) && p[0] == from && p[|p| - 1] == x;
      PathStaysIn(w, p, s, cardinalOnly);
    }
  }

  /** Every name the world mentions: its locations and the targets of its exits. */
  function Names(w: World): (r: set<string>)
    ensures w.Keys <= r
    ensures forall a :: Targets(w, a, false) <= r
    ensures forall a :: Targets(w, a, true) <= r
  {
    w.Keys + (set a, d | a in w && d in w[a].exits :: w[a].exits[d])
  }

  // ---------------------------------------------------------------------
  // Items lying in the world

  /** The number of items lying in the locations named by `names`. */
  ghost function ItemCount(w: World, names: set<string>): nat
    requires names <= w.Keys
  {
    if names == {} then 0
    else
      var n :| n in names;
      |w[n].items| + ItemCount(w, names - {n})
  }

  /** The count does not depend on which location the definition picks first. */
  lemma {:induction false} ItemCountRemove(w: World, names: set<string>, n: string)
    requires names <= w.Keys && n in names
    ensures ItemCount(w, names) == |w[n].items| + ItemCount(w, names - {n})
    decreases |names|
  {
    var m :| m in names && ItemCount(w, names) == |w[m].items| + ItemCount(w, names - {m});
    if m != n {
      ItemCountRemove(w, names - {m}, n);
      ItemCountRemove(w, names - {n}, m);
      assert names - {m} - {n} == names - {n} - {m};
    }
  }

  /** Two worlds that agree on the item lists of `names` count them alike. */
  lemma {:induction false} ItemCountAgree(w: World, v: World, names: set<string>)
    requires names <= w.Keys && names <= v.Keys
    requires forall n :: n in names ==> |w[n].items| == |v[n].items|
    ensures ItemCount(w, names) == ItemCount(v, names)
    decreases |names|
  {
    if names != {} {
      var n :| n in names && ItemCount(w, names) == |w[n].items| + ItemCount(w, names - {n});
      ItemCountRemove(v, names, n);
      ItemCountAgree(w, v, names - {n});
    }
  }

  /** `sum(len(location['ITEMS']) for location in map_data.values())`. */
  ghost function TotalItems(w: World): nat {
    ItemCount(w, w.Keys)
  }

  // ---------------------------------------------------------------------
  // Taking an item

  /** `s[i]` removed. */
  function RemoveAt<T>(s: seq<T>, i: nat): (r: seq<T>)
    requires i < |s|
    ensures |r| == |s| - 1
    ensures forall j :: 0 <= j < i ==> r[j] == s[j]
    ensures forall j :: i <= j < |r| ==> r[j] == s[j + 1]
  {
    s[..i] + s[i + 1..]
  }

  /** Python's `list.remove(x)`: drops the first occurrence of `x`. */
  function RemoveFirst<T(==)>(s: seq<T>, x: T): (r: seq<T>)
    requires x in s
    ensures multiset(r) + multiset{x} == multiset(s)
  {
    assert s == [s[0]] + s[1..];
    if s[0] == x then s[1..]
    else [s[0]] + RemoveFirst(s[1..], x)
  }

  /**
   * Removing the first occurrence of the element at `i` is removing index
   * `i`, when no earlier element equals it.
   */
  lemma {:induction false} RemoveFirstAt<T>(s: seq<T>, i: nat)
    requires i < |s|
    requires forall j :: 0 <= j < i ==> s[j] != s[i]
    ensures RemoveFirst(s, s[i]) == RemoveAt(s, i)
  {
    if i > 0 {
      RemoveFirstAt(s[1..], i - 1);
      assert RemoveAt(s[1..], i - 1) == s[1..][..i - 1] + s[1..][i..];
      assert [s[0]] + s[1..][..i - 1] == s[..i];
      assert s[1..][i..] == s[i + 1..];
    }
  }

  /** An item name as `take` compares it: lower case, underscores as spaces. */
  function ItemKey(item: string): string {
    Underscores(Lower(item))
  }

  /** The first index whose item `take` would match against `key`. */
  function FirstMatch(items: seq<string>, key: string): (r: Option<nat>)
    ensures r.Some? ==> r.value < |items| && ItemKey(items[r.value]) == key
    ensures r.Some? ==> forall j :: 0 <= j < r.value ==> ItemKey(items[j]) != key
    ensures r.None? ==> forall j :: 0 <= j < |items| ==> ItemKey(items[j]) != key
  {
    if items == [] then None
    else if ItemKey(items[0]) == key then Some(0)
    else match FirstMatch(items[1..], key)
      case None => None
      case Some(k) => Some(k + 1)
  }

  /** The search loop of `take`: scan the items in order, stop at the first match. */
  method FindItem(items: seq<string>, key: string) returns (found: Option<nat>)
    ensures found == FirstMatch(items, key)
  {
    var i := 0;
    while i < |items|
      invariant 0 <= i <= |items|
      invariant forall j :: 0 <= j < i ==> ItemKey(items[j]) != key
    {
      if ItemKey(items[i]) == key {
        FirstMatchIs(items, key, i);
        return Some(i);
      }
      i := i + 1;
    }
    FirstMatchNone(items, key);
    return None;
  }

  lemma {:induction false} FirstMatchIs(items: seq<string>, key: string, i: nat)
    requires i < |items| && ItemKey(items[i]) == key
    requires forall j :: 0 <= j < i ==> ItemKey(items[j]) != key
    ensures FirstMatch(items, key) == Some(i)
  {
    if i > 0 {
      FirstMatchIs(items[1..], key, i - 1);
    }
  }

  lemma {:induction false} FirstMatchNone(items: seq<string>, key: string)
    requires forall j :: 0 <= j < |items| ==> ItemKey(items[j]) != key
    ensures FirstMatch(items, key) == None
  {
    if items != [] {
      FirstMatchNone(items[1..], key);
    }
  }

  /** The world after the item at index `i` of location `loc` is picked up. */
  function TakeFrom(w: World, loc: string, i: nat): (v: World)
    requires loc in w && i < |w[loc].items|
    ensures v.Keys == w.Keys
    ensures forall n :: n in w && n != loc ==> v[n] == w[n]
    ensures v[loc] == w[loc].(items := RemoveAt(w[loc].items, i))
  {
    w[loc := w[loc].(items := RemoveAt(w[loc].items, i))]
  }

  /** Changing the items of a location keeps every exit leading somewhere. */
  lemma TakeKeepsClosed(w: World, loc: string, items: seq<string>)
    requires Closed(w) && loc in w
    ensures Closed(w[loc := w[loc].(items := items)])
  {
    var v := w[loc := w[loc].(items := items)];
    assert forall a :: a in v ==> v[a].exits == w[a].exits;
  }

  /** Every take lowers the number of items still lying in the world by one. */
  lemma TakeLowersTotal(w: World, loc: string, i: nat)
    requires loc in w && i < |w[loc].items|
    ensures TotalItems(TakeFrom(w, loc, i)) + 1 == TotalItems(w)
  {
    var v := TakeFrom(w, loc, i);
    ItemCountRemove(w, w.Keys, loc);
    ItemCountRemove(v, v.Keys, loc);
    ItemCountAgree(w, v, w.Keys - {loc});
  }
}
