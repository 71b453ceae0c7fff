/** What publishing needs from the codecs and the hash functions, and the laws it relies on. */
module World {
  import opened Text
  import opened Digests
  import opened R = Release
  import opened Package
  import opened Paths

  datatype World = World(
    hasher: Hasher,
    parsePackages: string -> Result<seq<Package>>,
    printPackages: (seq<Package>, string) -> Result<string>,
    pathOf: (Package, string) -> Result<string>,
    parseRelease: string -> ReleaseData,
    printRelease: (ReleaseData, string) -> string,
    payload: string -> string,
    good: (Package, string) -> bool)

  /** The key of a package body: clean, without a backslash, and below `pool/`. */
  ghost predicate PoolPath(path: string) {
    CleanKey(path) && HasPrefix(path, "pool/") && '\\' !in path
  }

  ghost predicate AllGood(w: World, packages: seq<Package>, codename: string) {
    forall i :: 0 <= i < |packages| ==> w.good(packages[i], codename)
  }

  /** The packages a printed manifest reads back as: the same paths under any codename, and good again. */
  ghost predicate ReadsBackAs(w: World, packages: seq<Package>, codename: string, again: seq<Package>) {
    && |again| == |packages|
    && forall i :: 0 <= i < |packages| ==> SamePackage(w, packages[i], codename, again[i])
  }

  ghost predicate SamePackage(w: World, p: Package, codename: string, q: Package) {
    forall d {:trigger w.pathOf(q, d)} {:trigger w.good(q, d)} ::
        w.pathOf(q, d) == w.pathOf(p, codename) && w.good(q, d)
  }

  ghost predicate PackagesLaw(w: World) {
    forall packages, codename {:trigger w.printPackages(packages, codename)} :: AllGood(w, packages, codename) ==>
      Printed(w, packages, codename, w.printPackages(packages, codename))
  }

  ghost predicate Printed(w: World, packages: seq<Package>, codename: string, text: Result<string>) {
    text.Ok? && w.parsePackages(text.value).Ok? && ReadsBackAs(w, packages, codename, w.parsePackages(text.value).value)
  }

  ghost predicate PathLaw(w: World) {
    forall p, codename {:trigger w.good(p, codename)} :: w.good(p, codename) ==>
      w.pathOf(p, codename).Ok? && PoolPath(w.pathOf(p, codename).value)
  }

  ghost predicate ReleaseLaw(w: World) {
    forall r, date {:trigger w.printRelease(r, date)} :: Renderable(r, date) ==>
      w.parseRelease(w.printRelease(r, date)) == r.(suite := Some(r.suite.GetOr("")))
  }

  /** Packages read from an index have one path, whatever the codename. */
  ghost predicate PlaceLaw(w: World) {
    forall text {:trigger w.parsePackages(text)} :: w.parsePackages(text).Ok? ==>
        FixedPaths(w, w.parsePackages(text).value)
  }

  ghost predicate FixedPaths(w: World, packages: seq<Package>) {
    forall i, d {:trigger w.pathOf(packages[i], d)} :: 0 <= i < |packages| ==>
        w.pathOf(packages[i], d) == w.pathOf(packages[i], "")
  }

  ghost predicate Lawful(w: World) {
    Proper(w.hasher) && PackagesLaw(w) && PathLaw(w) && ReleaseLaw(w)
  }
}
