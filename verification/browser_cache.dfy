/** The process-wide, build-once browser roots. The four file-level nullable
    caches of BrowserUIItem.kt are one `Caches` value threaded through every
    accessor. */
module BrowserCaches {
  import opened Wrappers
  import opened BrowserModel
  import opened StarBrowserRoots
  import opened DsoBrowserRoots

  datatype Caches = Caches(
    solRoot: Option<BrowserItem>,
    starRoot: Option<BrowserItem>,
    dsoRoot: Option<BrowserItem>,
    brightestStars: Option<BrowserItem>)

  /** The state at process start: nothing built yet. */
  const EmptyCaches: Caches := Caches(None, None, None, None)

  /** The solar-system root: the star the engine resolves for "Sol", captioned
      "Solar System". Absent, not an error, when the engine cannot resolve it. */
  function CreateSolBrowserRoot(u: Universe): (r: Option<BrowserItem>)
    ensures r.Some? <==> u.findStar("Sol").Some?
    ensures r.Some? ==> var sol := u.findStar("Sol").value;
                        && r.value.Leaf? && r.value.obj == StarObject(sol)
                        && r.value.name == u.starName(sol)
                        && r.value.alternativeName == Some(u.localize("Solar System"))
  {
    match u.findStar("Sol")
    case None => None
    case Some(sol) => Some(Leaf(u.starName(sol), Some(u.localize("Solar System")), StarObject(sol)))
  }

  /** Returns the cached solar-system root, looking it up while the cache is
      empty. A failed lookup is not remembered. */
  function SolBrowserRoot(u: Universe, c: Caches): (r: (Caches, Option<BrowserItem>))
    ensures r.1 == r.0.solRoot
    ensures r.0.starRoot == c.starRoot && r.0.dsoRoot == c.dsoRoot && r.0.brightestStars == c.brightestStars
    ensures c.solRoot.Some? ==> r.0 == c
    ensures c.solRoot.None? ==> r.1 == CreateSolBrowserRoot(u)
    ensures c.solRoot.None? ==> (r.1.Some? <==> u.findStar("Sol").Some?)
  {
    if c.solRoot.None? then
      var sol := CreateSolBrowserRoot(u);
      (c.(solRoot := sol), sol)
    else (c, c.solRoot)
  }

  /** Returns the cached "Stars" root, building it from `observer` only when
      the cache is empty; once built, the observer is ignored. */
  function StarBrowserRoot(u: Universe, observer: Observer, c: Caches): (r: (Caches, BrowserItem))
    ensures r.0.starRoot == Some(r.1)
    ensures r.0.solRoot == c.solRoot && r.0.dsoRoot == c.dsoRoot && r.0.brightestStars == c.brightestStars
    ensures c.starRoot.Some? ==> r.0 == c
    ensures c.starRoot.None? ==> r.1 == CreateStarBrowserRoot(u, observer, c.brightestStars)
  {
    if c.starRoot.None? then
      var root := CreateStarBrowserRoot(u, observer, c.brightestStars);
      (c.(starRoot := Some(root)), root)
    else (c, c.starRoot.value)
  }

  /** Returns the cached "Deep Sky Objects" root, building it only when the
      cache is empty. */
  function DsoBrowserRoot(u: Universe, c: Caches): (r: (Caches, BrowserItem))
    requires WellLocalized(u)
    ensures r.0.dsoRoot == Some(r.1)
    ensures r.0.solRoot == c.solRoot && r.0.starRoot == c.starRoot && r.0.brightestStars == c.brightestStars
    ensures c.dsoRoot.Some? ==> r.0 == c
    ensures c.dsoRoot.None? ==> r.1 == CreateDsoBrowserRoot(u).value
    ensures c.dsoRoot.None? ==> r.1.name == u.localize("Deep Sky Objects")
  {
    if c.dsoRoot.None? then
      var root := CreateDsoBrowserRoot(u).value;
      (c.(dsoRoot := Some(root)), root)
    else (c, c.dsoRoot.value)
  }

  /** The first static build, at process start, fills the solar-system,
      deep-sky and brightest caches from their builders and leaves the "Stars"
      cache empty. */
  lemma FirstStaticBuild(u: Universe, observer: Observer)
    requires WellLocalized(u)
    ensures CreateStaticBrowserItems(u, observer, EmptyCaches)
            == Caches(CreateSolBrowserRoot(u), None, Some(CreateDsoBrowserRoot(u).value),
                      Some(BrightestStarsAbsolute(u, observer)))
  {
  }

  /** Builds the observer-independent roots, filling only the caches that are
      still empty. */
  function CreateStaticBrowserItems(u: Universe, observer: Observer, c: Caches): (r: Caches)
    requires WellLocalized(u)
    ensures c.solRoot.Some? ==> r.solRoot == c.solRoot
    ensures c.dsoRoot.Some? ==> r.dsoRoot == c.dsoRoot
    ensures c.brightestStars.Some? ==> r.brightestStars == c.brightestStars
    ensures r.starRoot == c.starRoot
    ensures c.solRoot.None? ==> r.solRoot == CreateSolBrowserRoot(u)
    ensures c.dsoRoot.None? ==> r.dsoRoot == Some(CreateDsoBrowserRoot(u).value)
    ensures c.brightestStars.None? ==> r.brightestStars == Some(BrightestStarsAbsolute(u, observer))
    ensures c.solRoot.None? ==> (r.solRoot.Some? <==> u.findStar("Sol").Some?)
    ensures r.dsoRoot.Some? && r.brightestStars.Some?
    ensures c.brightestStars.None? ==>
              r.brightestStars.value.name == u.localize("Brightest Stars (Absolute Magnitude)")
  {
    var sol := if c.solRoot.None? then CreateSolBrowserRoot(u) else c.solRoot;
    var dso := if c.dsoRoot.None? then Some(CreateDsoBrowserRoot(u).value) else c.dsoRoot;
    var brightest := if c.brightestStars.None? then Some(BrightestStarsAbsolute(u, observer)) else c.brightestStars;
    Caches(sol, c.starRoot, dso, brightest)
  }

  /** Rebuilds the "Stars" root for `observer`, replacing any cached one. */
  function CreateDynamicBrowserItems(u: Universe, observer: Observer, c: Caches): (r: Caches)
    ensures r.solRoot == c.solRoot && r.dsoRoot == c.dsoRoot && r.brightestStars == c.brightestStars
    ensures r.starRoot == Some(CreateStarBrowserRoot(u, observer, c.brightestStars))
    ensures r.starRoot.Some? && r.starRoot.value.name == u.localize("Stars")
    ensures r.starRoot.value.Interior? && r.starRoot.value.children.Unordered?
    ensures c.brightestStars.Some? ==> c.brightestStars.value.name in r.starRoot.value.children.entries
  {
    c.(starRoot := Some(CreateStarBrowserRoot(u, observer, c.brightestStars)))
  }

  /** No negative caching: after a failed "Sol" lookup the caches are as they
      were, so a later call against an engine that now resolves "Sol" finds it. */
  lemma SolLookupRetried(u: Universe, later: Universe, c: Caches)
    requires c.solRoot.None? && u.findStar("Sol").None?
    requires later.findStar("Sol").Some?
    ensures SolBrowserRoot(u, c).0 == c
    ensures SolBrowserRoot(u, c).1.None?
    ensures SolBrowserRoot(later, SolBrowserRoot(u, c).0).1.Some?
  {
  }

  /** Memoisation: a second access returns the same root and changes nothing,
      whatever observer it passes. */
  lemma StarRootMemoised(u: Universe, first: Observer, second: Observer, c: Caches)
    ensures var (c1, root) := StarBrowserRoot(u, first, c);
            StarBrowserRoot(u, second, c1) == (c1, root)
  {
  }

  /** Memoisation of the deep-sky root. */
  lemma DsoRootMemoised(u: Universe, c: Caches)
    requires WellLocalized(u)
    ensures var (c1, root) := DsoBrowserRoot(u, c);
            DsoBrowserRoot(u, c1) == (c1, root)
  {
  }

  /** Building the static items twice is the same as building them once. */
  lemma StaticItemsIdempotent(u: Universe, observer: Observer, later: Observer, c: Caches)
    requires WellLocalized(u)
    ensures var c1 := CreateStaticBrowserItems(u, observer, c);
            CreateStaticBrowserItems(u, later, c1) == c1
  {
  }

  /** The dynamic rebuild is the only way a cached "Stars" root is replaced:
      the accessor then returns the rebuilt root for the new observer. */
  lemma DynamicRebuildReplacesStarRoot(u: Universe, before: Observer, after: Observer, c: Caches)
    ensures var (c1, _) := StarBrowserRoot(u, before, c);
            var c2 := CreateDynamicBrowserItems(u, after, c1);
            StarBrowserRoot(u, before, c2).1 == CreateStarBrowserRoot(u, after, c.brightestStars)
  {
  }
}
