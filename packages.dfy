/** The package index of the code-execution service: parsing the comma-separated
    index text into packages, the install location and installed test of a package,
    and the choice of the highest version that satisfies a requested range.
    Version parsing, range satisfaction and the file-system probe are oracles. */
module Packages {
  import opened Wrappers
  import opened Strings

  /** A parsed semantic version: its numeric triple and the text it was parsed from. */
  datatype Version = Version(major: nat, minor: nat, patch: nat, raw: string)

  /** `a` orders strictly above `b` (semver comparison on the numeric triple). */
  predicate Higher(a: Version, b: Version) {
    || a.major > b.major
    || (a.major == b.major && a.minor > b.minor)
    || (a.major == b.major && a.minor == b.minor && a.patch > b.patch)
  }

  /** `semver.parse`: the version a text denotes, or None (`null`) when it is not one. */
  type VersionParser = string -> Option<Version>

  /** `semver.satisfies(version, range)` for a parsed version. */
  type RangeTest = (Version, string) -> bool

  /** A package of the index. A field the line does not supply is None (`undefined`). */
  datatype Package = Package(language: Option<string>, version: Option<Version>,
                             checksum: Option<string>, download: Option<string>)

  /** `xs[i]` of a destructuring assignment: undefined past the end. */
  function Field(xs: seq<string>, i: nat): Option<string> {
    if i < |xs| then Some(xs[i]) else None
  }

  /** `line.split(',', 4)`: the pieces of the line, at most four, the rest dropped. */
  function LineFields(line: string): (fields: seq<string>)
    ensures 1 <= |fields| <= 4
    ensures forall i :: 0 <= i < |fields| ==> ',' !in fields[i]
    ensures |fields| <= |Split(line, ',')| && fields == Split(line, ',')[..|fields|]
    ensures |fields| < 4 ==> fields == Split(line, ',')
  {
    var parts := Split(line, ',');
    if |parts| <= 4 then parts else parts[..4]
  }

  /** The Package constructor on one index line. */
  function ParseLine(line: string, parse: VersionParser): Package {
    var fields := LineFields(line);
    Package(Field(fields, 0),
            if 1 < |fields| then parse(fields[1]) else None,
            Field(fields, 2), Field(fields, 3))
  }

  /** `filter(x => x.length > 0)`: the non-empty lines, in order. */
  function NonEmptyLines(lines: seq<string>): (r: seq<string>)
    ensures |r| <= |lines|
    ensures forall i :: 0 <= i < |r| ==> r[i] != ""
    ensures forall l :: l in r <==> l in lines && l != ""
  {
    if lines == [] then []
    else if lines[0] == "" then NonEmptyLines(lines[1..])
    else [lines[0]] + NonEmptyLines(lines[1..])
  }

  /** Filtering distributes over appending line lists. */
  lemma {:induction false} NonEmptyLinesAppend(a: seq<string>, b: seq<string>)
    ensures NonEmptyLines(a + b) == NonEmptyLines(a) + NonEmptyLines(b)
  {
    if a == [] {
      assert a + b == b;
    } else {
      assert (a + b)[1..] == a[1..] + b;
      NonEmptyLinesAppend(a[1..], b);
    }
  }

  /** `entries.map(line => new Package(...))`. */
  function ParseLines(lines: seq<string>, parse: VersionParser): (r: seq<Package>)
    ensures |r| == |lines|
    ensures forall i :: 0 <= i < |lines| ==> r[i] == ParseLine(lines[i], parse)
  {
    if lines == [] then [] else [ParseLine(lines[0], parse)] + ParseLines(lines[1..], parse)
  }

  /** `get_package_list` on the fetched index text. */
  function GetPackageList(index: string, parse: VersionParser): seq<Package> {
    ParseLines(NonEmptyLines(Split(index, '\n')), parse)
  }

  /** One package per non-empty line, in order: the index of two texts joined by a
      newline lists the packages of the first, then those of the second. */
  lemma {:induction false} PackageListAppend(a: string, b: string, parse: VersionParser)
    ensures GetPackageList(a + "\n" + b, parse) == GetPackageList(a, parse) + GetPackageList(b, parse)
  {
    assert a + "\n" + b == a + ['\n'] + b;
    SplitAppend(a, b, '\n');
    NonEmptyLinesAppend(Split(a, '\n'), Split(b, '\n'));
    var la, lb := NonEmptyLines(Split(a, '\n')), NonEmptyLines(Split(b, '\n'));
    assert ParseLines(la + lb, parse) == ParseLines(la, parse) + ParseLines(lb, parse);
  }

  /** A line with four or more fields keeps the first four: whatever follows the
      fourth comma is dropped, not folded into `download`. */
  lemma FieldsPastFourthDropped(parts: seq<string>, parse: VersionParser)
    requires |parts| >= 4
    requires forall i :: 0 <= i < |parts| ==> ',' !in parts[i]
    ensures var p := ParseLine(Join(parts, ","), parse);
      && p.language == Some(parts[0])
      && p.version == parse(parts[1])
      && p.checksum == Some(parts[2])
      && p.download == Some(parts[3])
  {
    SplitJoin(parts, ',');
  }

  /** A line with fewer than four fields leaves the missing ones undefined. */
  lemma MissingFieldsUndefined(parts: seq<string>, parse: VersionParser)
    requires 1 <= |parts| < 4
    requires forall i :: 0 <= i < |parts| ==> ',' !in parts[i]
    ensures var p := ParseLine(Join(parts, ","), parse);
      && p.language == Some(parts[0])
      && (|parts| >= 2 ==> p.version == parse(parts[1]))
      && (|parts| < 2 ==> p.version.None?)
      && (p.checksum.None? <==> |parts| < 3)
      && p.download.None?
  {
    SplitJoin(parts, ',');
  }

  /** `install_path`: `path.join(data_directory, packages, language, version.raw)`;
      None where reading `version.raw` of a null version, or joining an undefined
      language, throws. */
  function InstallPath(dataDirectory: string, packagesDirectory: string, p: Package): (r: Option<string>)
    ensures r.Some? <==> p.language.Some? && p.version.Some?
    ensures r.Some? ==> r.value == dataDirectory + "/" + packagesDirectory + "/" + p.language.value
                                   + "/" + p.version.value.raw
  {
    if p.language.None? || p.version.None? then None
    else
      var parts := [dataDirectory, packagesDirectory, p.language.value, p.version.value.raw];
      var l, v := p.language.value, p.version.value.raw;
      assert parts[1..] == [packagesDirectory, l, v] && parts[1..][1..] == [l, v];
      assert parts[1..][1..][1..] == [v];
      assert Join([l, v], "/") == l + "/" + v;
      assert Join([packagesDirectory, l, v], "/") == packagesDirectory + "/" + (l + "/" + v);
      Some(Join(parts, "/"))
  }

  /** The install path determines the package's language and raw version when
      neither contains a slash. */
  lemma {:induction false} InstallPathDeterminesPackage(dataDirectory: string, packagesDirectory: string, p: Package, q: Package)
    requires InstallPath(dataDirectory, packagesDirectory, p).Some?
    requires InstallPath(dataDirectory, packagesDirectory, p) == InstallPath(dataDirectory, packagesDirectory, q)
    requires '/' !in p.language.value && '/' !in p.version.value.raw
    requires '/' !in q.language.value && '/' !in q.version.value.raw
    ensures p.language == q.language && p.version.value.raw == q.version.value.raw
  {
    var prefix := dataDirectory + "/" + packagesDirectory;
    forall x: Package | InstallPath(dataDirectory, packagesDirectory, x).Some?
      && '/' !in x.language.value && '/' !in x.version.value.raw
      ensures Split(InstallPath(dataDirectory, packagesDirectory, x).value, '/')
              == Split(prefix, '/') + [x.language.value, x.version.value.raw]
    {
      var l, v := x.language.value, x.version.value.raw;
      assert InstallPath(dataDirectory, packagesDirectory, x).value == (prefix + ['/'] + l) + ['/'] + v;
      SplitAppend(prefix + ['/'] + l, v, '/');
      SplitAppend(prefix, l, '/');
      SplitWithoutSeparator(l, '/');
      SplitWithoutSeparator(v, '/');
    }
    var sp := Split(prefix, '/');
    var tp := Split(InstallPath(dataDirectory, packagesDirectory, p).value, '/');
    assert tp[|sp|] == p.language.value && tp[|sp|] == q.language.value;
    assert tp[|sp| + 1] == p.version.value.raw && tp[|sp| + 1] == q.version.value.raw;
  }

  /** `installed`: whether the marker file exists under the install path, asked of the
      file-system probe `fileExists`; None where computing the path throws. */
  function Installed(dataDirectory: string, packagesDirectory: string, marker: string,
                     fileExists: string -> bool, p: Package): (r: Option<bool>)
    ensures r.Some? <==> p.language.Some? && p.version.Some?
    ensures r.Some? ==> r.value == fileExists(InstallPath(dataDirectory, packagesDirectory, p).value + "/" + marker)
  {
    match InstallPath(dataDirectory, packagesDirectory, p)
    case None => None
    case Some(dir) =>
      assert Join([dir, marker], "/") == dir + "/" + marker by {
        assert [dir, marker][1..] == [marker];
      }
      Some(fileExists(Join([dir, marker], "/")))
  }

  /** The filter of `get_package`: `pkg.language == lang && semver.satisfies(pkg.version, range)`;
      `satisfies` answers false for a version that did not parse. */
  predicate Matches(p: Package, lang: string, range: string, satisfies: RangeTest) {
    p.language == Some(lang) && p.version.Some? && satisfies(p.version.value, range)
  }

  /** The candidates of `get_package`, in index order. */
  function Candidates(list: seq<Package>, lang: string, range: string, satisfies: RangeTest): (r: seq<Package>)
    ensures forall p :: p in r <==> p in list && Matches(p, lang, range, satisfies)
  {
    if list == [] then []
    else
      var rest := Candidates(list[1..], lang, range, satisfies);
      assert forall p :: p in list <==> p == list[0] || p in list[1..];
      if Matches(list[0], lang, range, satisfies) then [list[0]] + rest else rest
  }

  /** The first element of the candidates after the stable descending sort: the first
      candidate whose version no other candidate exceeds. */
  function Best(cs: seq<Package>): (k: nat)
    requires |cs| > 0 && forall i :: 0 <= i < |cs| ==> cs[i].version.Some?
    ensures k < |cs|
    ensures forall j :: 0 <= j < |cs| ==> !Higher(cs[j].version.value, cs[k].version.value)
    ensures forall j :: 0 <= j < k ==> Higher(cs[k].version.value, cs[j].version.value)
  {
    if |cs| == 1 then 0
    else
      var k' := Best(cs[1..]);
      assert cs[1..][k'] == cs[k' + 1];
      if Higher(cs[k' + 1].version.value, cs[0].version.value) then k' + 1 else 0
  }

  /** `get_package` on the fetched list: the highest satisfying package of the
      language, or None (`null`). */
  function GetPackage(list: seq<Package>, lang: string, range: string, satisfies: RangeTest): (r: Option<Package>)
    ensures r.None? <==> forall p :: p in list ==> !Matches(p, lang, range, satisfies)
    ensures r.Some? ==> r.value in list && Matches(r.value, lang, range, satisfies)
    ensures r.Some? ==> forall p :: p in list && Matches(p, lang, range, satisfies) ==>
                                      !Higher(p.version.value, r.value.version.value)
  {
    var cs := Candidates(list, lang, range, satisfies);
    if cs == [] then None
    else
      assert forall i :: 0 <= i < |cs| ==> cs[i] in cs;
      var k := Best(cs);
      assert forall p :: p in cs ==> exists j :: 0 <= j < |cs| && cs[j] == p;
      Some(cs[k])
  }
}
