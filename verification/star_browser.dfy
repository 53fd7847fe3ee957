/** Star branches of the catalog browser: one ranked list per star browser kind,
    and the composite "Stars" root. */
module StarBrowserRoots {
  import opened Wrappers
  import opened Collections
  import opened BrowserModel

  /** The item for one star: named by the catalog's canonical naming service. */
  function StarLeaf(u: Universe, s: Star): BrowserItem
  {
    Leaf(u.starName(s), None, StarObject(s))
  }

  /** The ordered builder: one (name, item) pair per star, in the engine's order,
      duplicates included. */
  function OrderedStarEntries(u: Universe, stars: seq<Star>): (r: seq<(string, BrowserItem)>)
    ensures |r| == |stars|
    ensures forall i :: 0 <= i < |stars| ==> r[i].0 == u.starName(stars[i]) && r[i].1 == StarLeaf(u, stars[i])
    decreases |stars|
  {
    if |stars| == 0 then []
    else
      var s := stars[|stars| - 1];
      OrderedStarEntries(u, stars[..|stars| - 1]) + [(u.starName(s), StarLeaf(u, s))]
  }

  /** The unordered builder: a map from star name to item, filled in list order. */
  function StarMap(u: Universe, stars: seq<Star>): (m: map<string, BrowserItem>)
    ensures m.Keys == set i | 0 <= i < |stars| :: u.starName(stars[i])
    decreases |stars|
  {
    if |stars| == 0 then map[]
    else
      var init := stars[..|stars| - 1];
      var s := stars[|stars| - 1];
      assert forall i :: 0 <= i < |init| ==> stars[i] == init[i];
      StarMap(u, init)[u.starName(s) := StarLeaf(u, s)]
  }

  /** The unordered builder keeps, for every name, the item of the LAST star
      carrying it: it is the ordered list collapsed with last-write-wins. */
  lemma {:induction false} StarMapIsLastWins(u: Universe, stars: seq<Star>)
    ensures StarMap(u, stars) == LastWins(OrderedStarEntries(u, stars))
    decreases |stars|
  {
    if |stars| > 0 {
      var init := stars[..|stars| - 1];
      var s := stars[|stars| - 1];
      StarMapIsLastWins(u, init);
      assert OrderedStarEntries(u, stars) == OrderedStarEntries(u, init) + [(u.starName(s), StarLeaf(u, s))];
      LastWinsSnoc(OrderedStarEntries(u, init), u.starName(s), StarLeaf(u, s));
    }
  }

  /** Consequence: the unordered builder maps each distinct name to the item of
      the last star with that name. */
  lemma StarMapLastWriteWins(u: Universe, stars: seq<Star>, name: string)
    requires name in StarMap(u, stars)
    ensures exists i :: 0 <= i < |stars| && u.starName(stars[i]) == name
                        && StarMap(u, stars)[name] == StarLeaf(u, stars[i])
                        && forall j :: i < j < |stars| ==> u.starName(stars[j]) != name
  {
    StarMapIsLastWins(u, stars);
    var pairs := OrderedStarEntries(u, stars);
    LastWinsKeepsLastValue(pairs, name);
    var i :| IsLastWith(pairs, i, name) && pairs[i].1 == LastWins(pairs)[name];
    assert forall j :: i < j < |stars| ==> u.starName(stars[j]) != name by {
      forall j | i < j < |stars| ensures u.starName(stars[j]) != name {
        assert pairs[j].0 != name;
      }
    }
  }

  /** One star branch: the engine's list for `kind` as seen by `observer`,
      kept in order or keyed by name. */
  function CreateStarBrowserRootItem(u: Universe, kind: StarBrowserKind, observer: Observer,
                                     title: string, ordered: bool): (r: BrowserItem)
    ensures r.Interior? && r.name == title && r.alternativeName == None
    ensures r.children.Ordered? <==> ordered
    ensures ordered ==> |r.children.pairs| == |u.starBrowser(kind, observer)|
    ensures ordered ==> forall i :: 0 <= i < |r.children.pairs| ==>
                          r.children.pairs[i].0 == u.starName(u.starBrowser(kind, observer)[i])
    ensures !ordered ==> r.children.entries.Keys ==
                          set i | 0 <= i < |u.starBrowser(kind, observer)| :: u.starName(u.starBrowser(kind, observer)[i])
    ensures ordered ==> r.children.pairs == OrderedStarEntries(u, u.starBrowser(kind, observer))
    ensures !ordered ==> r.children.entries == StarMap(u, u.starBrowser(kind, observer))
  {
    var stars := u.starBrowser(kind, observer);
    if ordered then Interior(title, None, Ordered(OrderedStarEntries(u, stars)))
    else Interior(title, None, Unordered(StarMap(u, stars)))
  }

  function NearestStars(u: Universe, observer: Observer): BrowserItem
  {
    CreateStarBrowserRootItem(u, Nearest, observer, u.localize("Nearest Stars"), true)
  }

  function BrighterStars(u: Universe, observer: Observer): BrowserItem
  {
    CreateStarBrowserRootItem(u, Brighter, observer, u.localize("Brightest Stars"), true)
  }

  function StarsWithPlanets(u: Universe, observer: Observer): BrowserItem
  {
    CreateStarBrowserRootItem(u, WithPlanets, observer, u.localize("Stars with Planets"), true)
  }

  /** The context-independent branch cached once per process. */
  function BrightestStarsAbsolute(u: Universe, observer: Observer): BrowserItem
  {
    CreateStarBrowserRootItem(u, Brightest, observer, u.localize("Brightest Stars (Absolute Magnitude)"), true)
  }

  /** The composite "Stars" root: the nearest, brighter and with-planets
      branches inserted in that order, then the cached absolute-magnitude
      branch when there is one. A later insertion under the same name replaces
      an earlier one. */
  function CreateStarBrowserRoot(u: Universe, observer: Observer, brightest: Option<BrowserItem>): (r: BrowserItem)
    ensures r.Interior? && r.name == u.localize("Stars") && r.alternativeName == None
    ensures r.children.Unordered?
    ensures r.children.entries.Keys ==
              {u.localize("Nearest Stars"), u.localize("Brightest Stars"), u.localize("Stars with Planets")}
              + (if brightest.Some? then {brightest.value.name} else {})
    ensures brightest.Some? ==> r.children.entries[brightest.value.name] == brightest.value
    ensures (brightest.None? || brightest.value.name != u.localize("Stars with Planets")) ==>
              r.children.entries[u.localize("Stars with Planets")] == StarsWithPlanets(u, observer)
    ensures (brightest.None? || brightest.value.name != u.localize("Brightest Stars"))
            && u.localize("Brightest Stars") != u.localize("Stars with Planets") ==>
              r.children.entries[u.localize("Brightest Stars")] == BrighterStars(u, observer)
    ensures (brightest.None? || brightest.value.name != u.localize("Nearest Stars"))
            && u.localize("Nearest Stars") != u.localize("Brightest Stars")
            && u.localize("Nearest Stars") != u.localize("Stars with Planets") ==>
              r.children.entries[u.localize("Nearest Stars")] == NearestStars(u, observer)
  {
    var nearest := NearestStars(u, observer);
    var brighter := BrighterStars(u, observer);
    var hasPlanets := StarsWithPlanets(u, observer);
    var base := map[nearest.name := nearest][brighter.name := brighter][hasPlanets.name := hasPlanets];
    var entries := if brightest.Some? then base[brightest.value.name := brightest.value] else base;
    Interior(u.localize("Stars"), None, Unordered(entries))
  }
}
