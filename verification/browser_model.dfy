/** The catalog browser's tree nodes and the engine queries the builders consume. */
module BrowserModel {
  import opened Wrappers

  /** Opaque engine handles. Identity is the only thing the builders use. */
  datatype Star = Star(id: nat)
  datatype DeepSkyObject = DeepSkyObject(id: nat, typeTag: string)
  datatype Observer = Observer(id: nat)

  /** The catalog object a browser item stands for. */
  datatype AstroObject = StarObject(star: Star) | DsoObject(dso: DeepSkyObject)

  /** The star browser rankings the engine offers. */
  datatype StarBrowserKind = Nearest | Brighter | Brightest | WithPlanets

  /** A browser node: either it wraps one catalog object (the engine lists the
      object's own children on demand), or it groups named children, kept either
      in presentation order (duplicates allowed) or in a name-keyed map. */
  datatype BrowserItem =
    | Leaf(name: string, alternativeName: Option<string>, obj: AstroObject)
    | Interior(name: string, alternativeName: Option<string>, children: Children)

  datatype Children =
    | Ordered(pairs: seq<(string, BrowserItem)>)
    | Unordered(entries: map<string, BrowserItem>)

  /** The engine as the builders see it: object lookup by name, canonical star
      names, ranked star lists per observer, the deep-sky catalog with its
      naming service, and the string localisation service. */
  datatype Universe = Universe(
    findStar: string -> Option<Star>,
    starName: Star -> string,
    starBrowser: (StarBrowserKind, Observer) -> seq<Star>,
    dsoCatalog: seq<DeepSkyObject>,
    dsoName: DeepSkyObject -> string,
    localize: string -> string)

  /** The fatal configuration defect of the deep-sky builder: bucket keys that
      have no display label. The thrown message names one of them. */
  datatype BrowserError = LabelNotFound(keys: set<string>)
}
