/**
 * What makes a directory a complete bundle of the native package, and a valid
 * one (ui/neuron-tui/scripts/open-tui-native-bundle.ts).
 */
module NativeBundle {
  import opened Wrappers

  type Bytes = seq<int>

  /** A directory by the files in it. */
  type Dir = map<string, Bytes>

  const RECEIPT_FILE := ".neuron-tui-native-bundle.json"
  const PACKAGE_JSON := "package.json"
  const INDEX_FILE := "index.bun.js"

  datatype Target = Target(platform: string, arch: string, musl: bool)

  datatype PackageJson = PackageJson(name: string, version: Option<string>, os: Option<seq<string>>, cpu: Option<seq<string>>)

  datatype Receipt = Receipt(version: string, files: Option<map<string, string>>)

  /** JSON parsing, JSON printing and SHA-256, as the script calls them. */
  datatype Codec = Codec(
    parsePackage: Bytes -> Option<PackageJson>,
    parseReceipt: Bytes -> Option<Receipt>,
    printReceipt: (string, map<string, string>) -> Bytes,
    hash: Bytes -> string)

  /** What is printed as a receipt is read back as one. */
  ghost predicate RoundTrips(c: Codec) {
    forall version, files :: c.parseReceipt(c.printReceipt(version, files)) == Some(Receipt(version, Some(files)))
  }

  function PackageName(target: Target): (name: string) {
    "@opentui/core-" + target.platform + "-" + target.arch + (if target.musl then "-musl" else "")
  }

  function NativeLibrary(platform: string): (file: Option<string>) {
    if platform == "win32" then Some("opentui.dll")
    else if platform == "darwin" then Some("libopentui.dylib")
    else if platform == "linux" then Some("libopentui.so")
    else None
  }

  datatype Bundle = Bundle(version: string, files: map<string, Bytes>)

  function ReadComplete(c: Codec, target: Target, dir: Option<Dir>): (bundle: Option<Bundle>) {
    var library := NativeLibrary(target.platform);
    if library.None? || dir.None? then None
    else if PACKAGE_JSON !in dir.value || INDEX_FILE !in dir.value || library.value !in dir.value then None
    else
      var files := map[PACKAGE_JSON := dir.value[PACKAGE_JSON], INDEX_FILE := dir.value[INDEX_FILE], library.value := dir.value[library.value]];
      if files[PACKAGE_JSON] == [] || files[INDEX_FILE] == [] || files[library.value] == [] then None
      else
        var package := c.parsePackage(files[PACKAGE_JSON]);
        if package.None? then None
        else
          var p := package.value;
          if p.name == PackageName(target) && p.version.Some?
             && p.os.Some? && target.platform in p.os.value && p.cpu.Some? && target.arch in p.cpu.value
          then Some(Bundle(p.version.value, files))
          else None
  }

  function ValidVersion(c: Codec, target: Target, dir: Option<Dir>): (version: Option<string>) {
    var bundle := ReadComplete(c, target, dir);
    if bundle.None? || RECEIPT_FILE !in dir.value then None
    else
      var receipt := c.parseReceipt(dir.value[RECEIPT_FILE]);
      if receipt.None? || receipt.value.version != bundle.value.version || receipt.value.files.None? then None
      else
        var hashes := receipt.value.files.value;
        if forall file :: file in bundle.value.files ==> file in hashes && hashes[file] == c.hash(bundle.value.files[file])
        then Some(bundle.value.version)
        else None
  }

  function Hashes(c: Codec, files: map<string, Bytes>): (hashes: map<string, string>)
    ensures hashes.Keys == files.Keys && forall file :: file in files ==> hashes[file] == c.hash(files[file])
  {
    map file | file in files :: c.hash(files[file])
  }

  /** The directory with its receipt written, when it holds a complete bundle of the wanted version. */
  function Sealed(c: Codec, target: Target, dir: Option<Dir>, version: string): (sealed: Option<Dir>) {
    var bundle := ReadComplete(c, target, dir);
    if bundle.None? || bundle.value.version != version then None
    else Some(dir.value[RECEIPT_FILE := c.printReceipt(version, Hashes(c, bundle.value.files))])
  }

  // ------------------------------------------------------ what is looked at

  predicate IsLibrary(platform: string, file: string) {
    || (platform == "win32" && file == "opentui.dll")
    || (platform == "darwin" && file == "libopentui.dylib")
    || (platform == "linux" && file == "libopentui.so")
  }

  predicate HasContents(dir: Dir, file: string) {
    file in dir && dir[file] != []
  }

  /** The package file is for this target, and of this version. */
  ghost predicate IsPackageFor(p: Option<PackageJson>, target: Target, version: string) {
    && p.Some? && p.value.version == Some(version)
    && p.value.name == "@opentui/core-" + target.platform + "-" + target.arch + (if target.musl then "-musl" else "")
    && p.value.os.Some? && target.platform in p.value.os.value
    && p.value.cpu.Some? && target.arch in p.value.cpu.value
  }

  /** A bundle is complete exactly when its three files have contents and its package is for the target; nothing else in it counts. */
  lemma CompleteExactly(c: Codec, target: Target, dir: Dir, library: string, version: string)
    requires IsLibrary(target.platform, library)
    ensures var bundle := ReadComplete(c, target, Some(dir));
            && (bundle.Some? && bundle.value.version == version <==>
                  && HasContents(dir, "package.json") && HasContents(dir, "index.bun.js") && HasContents(dir, library)
                  && IsPackageFor(c.parsePackage(dir["package.json"]), target, version))
            && (bundle.Some? ==>
                  && bundle.value.files.Keys == {"package.json", "index.bun.js", library} <= dir.Keys
                  && forall file :: file in bundle.value.files ==> bundle.value.files[file] == dir[file])
  {
    assert NativeLibrary(target.platform) == Some(library);
  }

  /** On a platform without a native library nothing is complete. */
  lemma OtherPlatformsHaveNone(c: Codec, target: Target, dir: Option<Dir>)
    requires target.platform !in {"win32", "darwin", "linux"}
    ensures ReadComplete(c, target, dir).None? && ValidVersion(c, target, dir).None?
  {}

  /** A complete bundle is valid exactly when its receipt names its version and the hash of each of its files. */
  lemma ValidExactly(c: Codec, target: Target, dir: Dir, version: string)
    ensures ValidVersion(c, target, Some(dir)) == Some(version) <==>
            && ReadComplete(c, target, Some(dir)).Some? && ReadComplete(c, target, Some(dir)).value.version == version
            && ".neuron-tui-native-bundle.json" in dir
            && var receipt := c.parseReceipt(dir[".neuron-tui-native-bundle.json"]);
               && receipt.Some? && receipt.value.version == version && receipt.value.files.Some?
               && forall file :: file in ReadComplete(c, target, Some(dir)).value.files ==>
                    file in receipt.value.files.value && receipt.value.files.value[file] == c.hash(dir[file])
  {
    if ReadComplete(c, target, Some(dir)).Some? {
      FilesAreTheirs(c, target, dir);
    }
  }

  lemma FilesAreTheirs(c: Codec, target: Target, dir: Dir)
    requires ReadComplete(c, target, Some(dir)).Some?
    ensures forall file :: file in ReadComplete(c, target, Some(dir)).value.files ==>
              file in dir && ReadComplete(c, target, Some(dir)).value.files[file] == dir[file]
  {}

  // ---------------------------------------------------------- properties

  /** What removing some files leaves. */
  ghost predicate IsPartOf(part: Dir, whole: Dir) {
    forall file :: file in part ==> file in whole && part[file] == whole[file]
  }

  /** Removing files never makes a bundle complete, and never changes its version. */
  lemma RemovalNeverCompletes(c: Codec, target: Target, part: Dir, whole: Dir)
    requires IsPartOf(part, whole) && ReadComplete(c, target, Some(part)).Some?
    ensures ReadComplete(c, target, Some(whole)) == ReadComplete(c, target, Some(part))
  {}

  /** Removing files from a bundle that is not valid can never make it valid. */
  lemma RemovalNeverValidates(c: Codec, target: Target, part: Dir, whole: Dir)
    requires IsPartOf(part, whole) && ValidVersion(c, target, Some(part)).Some?
    ensures ValidVersion(c, target, Some(whole)) == ValidVersion(c, target, Some(part))
  {
    RemovalNeverCompletes(c, target, part, whole);
  }

  /** A sealed bundle is valid at the version it was sealed for. */
  lemma SealedIsValid(c: Codec, target: Target, dir: Option<Dir>, version: string)
    requires RoundTrips(c) && Sealed(c, target, dir, version).Some?
    ensures ValidVersion(c, target, Sealed(c, target, dir, version)) == Some(version)
  {
    var bundle := ReadComplete(c, target, dir).value;
    var hashes := Hashes(c, bundle.files);
    assert c.parseReceipt(c.printReceipt(version, hashes)) == Some(Receipt(version, Some(hashes)));
    LibraryIsNotReceipt(target);
    assert ReadComplete(c, target, Sealed(c, target, dir, version)) == Some(bundle);
  }

  /** Sealing needs a complete bundle of the version, and writes nothing but the receipt. */
  lemma SealingWritesTheReceipt(c: Codec, target: Target, dir: Dir, version: string)
    ensures var bundle, sealed := ReadComplete(c, target, Some(dir)), Sealed(c, target, Some(dir), version);
            && (sealed.Some? <==> bundle.Some? && bundle.value.version == version)
            && (sealed.Some? ==>
                  && sealed.value.Keys == dir.Keys + {".neuron-tui-native-bundle.json"}
                  && forall file :: file in dir && file != ".neuron-tui-native-bundle.json" ==> sealed.value[file] == dir[file])
  {}

  lemma LibraryIsNotReceipt(target: Target)
    ensures NativeLibrary(target.platform) != Some(RECEIPT_FILE)
    ensures PACKAGE_JSON != RECEIPT_FILE && INDEX_FILE != RECEIPT_FILE
  {
    assert RECEIPT_FILE[0] == '.';
  }

  /** A valid bundle in which a checked file was replaced by bytes of another hash is no longer valid. */
  lemma TamperingInvalidates(c: Codec, target: Target, dir: Dir, file: string, bytes: Bytes)
    requires ValidVersion(c, target, Some(dir)).Some?
    requires file in {PACKAGE_JSON, INDEX_FILE} || NativeLibrary(target.platform) == Some(file)
    requires c.hash(bytes) != c.hash(dir[file])
    ensures ValidVersion(c, target, Some(dir[file := bytes])).None?
  {
    LibraryIsNotReceipt(target);
  }
}
