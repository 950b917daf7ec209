/** Deciding whether two tasks' changes overlap. */
module Overlap {
  import opened Records
  import opened Decimal
  import opened SortedStrings
  import Hunks

  datatype Kind = FileOverlap | AdjacentLines | Migration | Dependency

  datatype ChangeSet = ChangeSet(files: seq<string>, hunks: map<string, seq<Hunks.LineRange>>)

  const ADJACENCY_WINDOW := 3

  const DEPENDENCY_MANIFESTS: set<string> := {
    "go.mod", "go.sum", "package.json", "package-lock.json", "npm-shrinkwrap.json", "pnpm-lock.yaml", "yarn.lock",
    "bun.lock", "bun.lockb", "requirements.txt", "Pipfile", "Pipfile.lock", "pyproject.toml", "poetry.lock",
    "uv.lock", "Cargo.toml", "Cargo.lock", "Gemfile", "Gemfile.lock", "composer.json", "composer.lock", "pom.xml",
    "build.gradle", "build.gradle.kts", "settings.gradle", "settings.gradle.kts", "gradle.lockfile",
    "packages.lock.json", "Directory.Packages.props", "Package.swift", "Package.resolved", "mix.exs", "mix.lock",
    "pubspec.yaml", "pubspec.lock"
  }

  predicate Manifest(base: string) {
    base in DEPENDENCY_MANIFESTS
  }

  /** Path components; there is always at least one. */
  function Components(path: string): (parts: seq<string>)
    ensures parts != []
  {
    if path == "" then [""]
    else
      var rest := Components(path[1..]);
      if path[0] == '/' then [""] + rest else [[path[0]] + rest[0]] + rest[1..]
  }

  function Base(path: string): string {
    var parts := Components(path);
    parts[|parts| - 1]
  }

  function Dirs(path: string): seq<string> {
    var parts := Components(path);
    parts[..|parts| - 1]
  }

  predicate HasSuffix(s: string, suffix: string) {
    |suffix| <= |s| && s[|s| - |suffix|..] == suffix
  }

  predicate MigrationPath(path: string) {
    HasSuffix(path, ".sql") && "migrations" in Dirs(path)
  }

  function RangesOf(c: ChangeSet, path: string): seq<Hunks.LineRange> {
    if path in c.hunks then c.hunks[path] else []
  }

  /** In 64-bit arithmetic. */
  predicate Near(a: Hunks.LineRange, b: Hunks.LineRange) {
    && a.start <= Hunks.Wrap(b.end + ADJACENCY_WINDOW)
    && b.start <= Hunks.Wrap(a.end + ADJACENCY_WINDOW)
  }

  predicate Adjacent(a: seq<Hunks.LineRange>, b: seq<Hunks.LineRange>) {
    exists i, j | 0 <= i < |a| && 0 <= j < |b| :: Near(a[i], b[j])
  }

  // ---- what an overlap is

  function Shared(a: ChangeSet, b: ChangeSet): set<string> {
    Elements(a.files) * Elements(b.files)
  }

  function Migrations(files: seq<string>): set<string> {
    set f <- files | MigrationPath(f)
  }

  predicate SharesAdjacentLines(a: ChangeSet, b: ChangeSet) {
    exists f <- Shared(a, b) :: Adjacent(RangesOf(a, f), RangesOf(b, f))
  }

  predicate SharesManifest(a: ChangeSet, b: ChangeSet) {
    exists f <- Shared(a, b) :: Manifest(Base(f))
  }

  predicate BothMigrate(a: ChangeSet, b: ChangeSet) {
    Migrations(a.files) != {} && Migrations(b.files) != {}
  }

  function Also(kinds: seq<Kind>, found: bool, kind: Kind): seq<Kind> {
    if found then kinds + [kind] else kinds
  }

  function KindsOf(a: ChangeSet, b: ChangeSet): seq<Kind> {
    Also(Also(Also(Also([], Shared(a, b) != {}, FileOverlap),
                   SharesAdjacentLines(a, b), AdjacentLines),
              BothMigrate(a, b), Migration),
         SharesManifest(a, b), Dependency)
  }

  function FilesOf(a: ChangeSet, b: ChangeSet): set<string> {
    Shared(a, b) + if BothMigrate(a, b) then Migrations(a.files) + Migrations(b.files) else {}
  }

  ghost predicate IsOverlap(a: ChangeSet, b: ChangeSet, kinds: seq<Kind>, files: seq<string>) {
    kinds == KindsOf(a, b) && Strict(files) && Elements(files) == FilesOf(a, b)
  }

  // ---- the scans

  /** The paths both list, each once, sorted. */
  method Intersect(a: seq<string>, b: seq<string>) returns (r: seq<string>)
    ensures Strict(r) && Elements(r) == Elements(a) * Elements(b)
  {
    var inA: map<string, bool> := map[];
    for i := 0 to |a|
      invariant forall f :: f in inA <==> f in a[..i]
      invariant forall f <- inA :: inA[f]
    {
      inA := inA[a[i] := true];
    }
    assert a[..|a|] == a;
    var out: seq<string> := [];
    for i := 0 to |b|
      invariant forall f :: f in inA <==> f in a
      invariant forall f <- inA :: inA[f] <==> f !in out
      invariant Distinct(out)
      invariant forall f :: f in out <==> f in a && f in b[..i]
    {
      var f := b[i];
      if f in inA && inA[f] {
        out := out + [f];
        inA := inA[f := false];
      }
      assert b[..i + 1] == b[..i] + [f];
    }
    assert b[..|b|] == b;
    SortStrict(out);
    r := Sort(out);
  }

  method RangesAdjacent(a: seq<Hunks.LineRange>, b: seq<Hunks.LineRange>) returns (adjacent: bool)
    ensures adjacent <==> Adjacent(a, b)
  {
    hide Near;
    for i := 0 to |a|
      invariant forall m, n | 0 <= m < i && 0 <= n < |b| :: !Near(a[m], b[n])
    {
      for j := 0 to |b|
        invariant forall n | 0 <= n < j :: !Near(a[i], b[n])
      {
        if Near(a[i], b[j]) {
          return true;
        }
      }
    }
    return false;
  }

  method MigrationPaths(files: seq<string>) returns (out: seq<string>)
    ensures Elements(out) == Migrations(files)
  {
    hide HasSuffix, Dirs;
    out := [];
    for i := 0 to |files|
      invariant forall f :: f in out <==> f in files[..i] && MigrationPath(f)
    {
      var f := files[i];
      assert files[..i + 1] == files[..i] + [f];
      if HasSuffix(f, ".sql") {
        var dirs := Dirs(f);
        var k := 0;
        while k < |dirs| && dirs[k] != "migrations"
          invariant 0 <= k <= |dirs|
          invariant "migrations" !in dirs[..k]
        {
          assert dirs[..k + 1] == dirs[..k] + [dirs[k]];
          k := k + 1;
        }
        if k < |dirs| {
          out := out + [f];
        } else {
          assert dirs[..k] == dirs;
        }
      }
    }
    assert files[..|files|] == files;
  }

  /** The keys come out of the map in no particular order. */
  method SortedKeys(m: map<string, bool>) returns (r: seq<string>)
    ensures Strict(r) && Elements(r) == m.Keys
  {
    var keys := m.Keys;
    var out: seq<string> := [];
    while keys != {}
      invariant keys <= m.Keys && Distinct(out)
      invariant Elements(out) == m.Keys - keys
      decreases |keys|
    {
      var k :| k in keys;
      assert k !in Elements(out) && Elements(out + [k]) == Elements(out) + {k};
      out := out + [k];
      keys := keys - {k};
    }
    SortStrict(out);
    r := Sort(out);
  }

  /** Every file of a list is marked. */
  method MarkAll(files: map<string, bool>, more: seq<string>) returns (r: map<string, bool>)
    ensures r.Keys == files.Keys + Elements(more)
  {
    r := files;
    for i := 0 to |more|
      invariant r.Keys == files.Keys + Elements(more[..i])
    {
      r := r[more[i] := true];
      assert more[..i + 1] == more[..i] + [more[i]];
    }
    assert more[..|more|] == more;
  }

  method FindOverlap(a: ChangeSet, b: ChangeSet) returns (kinds: seq<Kind>, files: seq<string>)
    ensures IsOverlap(a, b, kinds, files)
  {
    hide Manifest, Base, Strict;
    kinds := [];
    var marked: map<string, bool> := map[];
    var shared := Intersect(a.files, b.files);
    assert Elements(shared) == Shared(a, b);
    assert SharesManifest(a, b) <==> exists f <- Elements(shared) :: Manifest(Base(f));
    hide Elements, Shared, Migrations, SharesAdjacentLines, SharesManifest;
    ElementsEmpty(shared);
    if |shared| > 0 {
      kinds := kinds + [FileOverlap];
      marked := MarkAll(marked, shared);
    }
    ghost var named := Also([], Shared(a, b) != {}, FileOverlap);
    assert kinds == named && marked.Keys == Shared(a, b);

    var adjacent := AdjacentShared(a, b, shared);
    if adjacent {
      kinds := kinds + [AdjacentLines];
    }
    named := Also(named, SharesAdjacentLines(a, b), AdjacentLines);
    assert kinds == named;

    var aMigrations := MigrationPaths(a.files);
    var bMigrations := MigrationPaths(b.files);
    ElementsEmpty(aMigrations);
    ElementsEmpty(bMigrations);
    if |aMigrations| > 0 && |bMigrations| > 0 {
      kinds := kinds + [Migration];
      ElementsConcat(aMigrations, bMigrations);
      marked := MarkAll(marked, aMigrations + bMigrations);
    }
    named := Also(named, BothMigrate(a, b), Migration);
    assert kinds == named && marked.Keys == FilesOf(a, b);
    hide BothMigrate, FilesOf;

    var dependency := ManifestShared(shared);
    if dependency {
      kinds := kinds + [Dependency];
    }
    files := SortedKeys(marked);
  }

  lemma ElementsConcat(s: seq<string>, t: seq<string>)
    ensures Elements(s + t) == Elements(s) + Elements(t)
  {
  }

  method AdjacentShared(a: ChangeSet, b: ChangeSet, shared: seq<string>) returns (adjacent: bool)
    requires Elements(shared) == Shared(a, b)
    ensures adjacent <==> SharesAdjacentLines(a, b)
  {
    hide Adjacent, Shared;
    adjacent := false;
    for i := 0 to |shared|
      invariant adjacent <==> exists k | 0 <= k < i :: Adjacent(RangesOf(a, shared[k]), RangesOf(b, shared[k]))
    {
      var near := RangesAdjacent(RangesOf(a, shared[i]), RangesOf(b, shared[i]));
      if near {
        adjacent := true;
      }
    }
    if adjacent {
      var k :| 0 <= k < |shared| && Adjacent(RangesOf(a, shared[k]), RangesOf(b, shared[k]));
      assert shared[k] in Elements(shared);
    } else {
      forall f | f in Shared(a, b)
        ensures !Adjacent(RangesOf(a, f), RangesOf(b, f))
      {
        assert f in Elements(shared);
        var k :| 0 <= k < |shared| && shared[k] == f;
      }
    }
  }

  method ManifestShared(shared: seq<string>) returns (dependency: bool)
    ensures dependency <==> exists f <- Elements(shared) :: Manifest(Base(f))
  {
    hide Manifest, Base;
    dependency := false;
    for i := 0 to |shared|
      invariant dependency <==> exists k | 0 <= k < i :: Manifest(Base(shared[k]))
    {
      if Manifest(Base(shared[i])) {
        dependency := true;
      }
    }
    if dependency {
      var k :| 0 <= k < |shared| && Manifest(Base(shared[k]));
      assert shared[k] in Elements(shared);
    }
  }

  // ---- what the kinds mean

  /** Path components with slashes between. */
  function Joined(parts: seq<string>): string
    requires parts != []
  {
    if |parts| == 1 then parts[0] else parts[0] + "/" + Joined(parts[1..])
  }

  /** A path is its components joined, and no component holds a slash. */
  lemma {:induction false} JoinComponents(path: string)
    ensures Joined(Components(path)) == path
    ensures forall part <- Components(path) :: '/' !in part
  {
    if path != "" {
      JoinComponents(path[1..]);
      var rest := Components(path[1..]);
      assert path == [path[0]] + path[1..];
      assert ([[path[0]] + rest[0]] + rest[1..])[1..] == rest[1..] && ([""] + rest)[1..] == rest;
    }
  }

  lemma {:induction false} ComponentsOfPart(part: string, rest: string)
    requires '/' !in part
    ensures Components(part) == [part]
    ensures Components(part + "/" + rest) == [part] + Components(rest)
  {
    if part == "" {
      assert ("/" + rest)[1..] == rest;
    } else {
      ComponentsOfPart(part[1..], rest);
      assert (part + "/" + rest)[1..] == part[1..] + "/" + rest;
      assert [part[0]] + part[1..] == part;
    }
  }

  /** Joining components without slashes and taking the path apart again gives them back. */
  lemma {:induction false} ComponentsJoined(parts: seq<string>)
    requires parts != [] && forall part <- parts :: '/' !in part
    ensures Components(Joined(parts)) == parts
  {
    if |parts| == 1 {
      ComponentsOfPart(parts[0], "");
    } else {
      ComponentsJoined(parts[1..]);
      ComponentsOfPart(parts[0], Joined(parts[1..]));
      assert parts == [parts[0]] + parts[1..];
    }
  }

  /** A manifest or migration is told by the last component and the directories before it, wherever it is. */
  lemma FileBelow(dirs: seq<string>, base: string)
    requires '/' !in base && forall dir <- dirs :: '/' !in dir
    ensures var path := Joined(dirs + [base]);
            && Base(path) == base && Dirs(path) == dirs
            && (MigrationPath(path) <==>
                  "migrations" in dirs && |path| >= 4 && path[|path| - 4..] == ".sql")
  {
    ComponentsJoined(dirs + [base]);
  }

  ghost predicate InBoth(a: ChangeSet, b: ChangeSet, path: string) {
    path in a.files && path in b.files
  }

  /** Both sides changed ranges of this file, some two of which are near each other. */
  ghost predicate HunksNear(a: ChangeSet, b: ChangeSet, path: string) {
    path in a.hunks && path in b.hunks && exists r <- a.hunks[path], s <- b.hunks[path] :: Near(r, s)
  }

  lemma HunksAdjacent(a: ChangeSet, b: ChangeSet, path: string)
    ensures HunksNear(a, b, path) <==> Adjacent(RangesOf(a, path), RangesOf(b, path))
  {
    hide Near;
    if HunksNear(a, b, path) {
      var r, s :| r in a.hunks[path] && s in b.hunks[path] && Near(r, s);
      var i :| 0 <= i < |a.hunks[path]| && a.hunks[path][i] == r;
      var j :| 0 <= j < |b.hunks[path]| && b.hunks[path][j] == s;
    }
  }

  /** Each kind is listed exactly when its reason is there, and they come in this order. */
  lemma KindsMean(a: ChangeSet, b: ChangeSet, kinds: seq<Kind>, files: seq<string>)
    requires IsOverlap(a, b, kinds, files)
    ensures FileOverlap in kinds <==> exists f :: InBoth(a, b, f)
    ensures AdjacentLines in kinds <==> exists f :: InBoth(a, b, f) && HunksNear(a, b, f)
    ensures Migration in kinds <==> (exists f <- a.files :: MigrationPath(f)) && exists f <- b.files :: MigrationPath(f)
    ensures Dependency in kinds <==> exists f :: InBoth(a, b, f) && Base(f) in DEPENDENCY_MANIFESTS
    ensures forall i, j | 0 <= i < j < |kinds| :: Place(kinds[i]) < Place(kinds[j])
    ensures forall f :: f in files <==>
              InBoth(a, b, f) || (Migration in kinds && MigrationPath(f) && (f in a.files || f in b.files))
  {
    hide Near, Adjacent, HunksNear, MigrationPath, Base, RangesOf, Strict;
    forall f
      ensures HunksNear(a, b, f) <==> Adjacent(RangesOf(a, f), RangesOf(b, f))
    {
      HunksAdjacent(a, b, f);
    }
    forall f
      ensures f in Shared(a, b) <==> InBoth(a, b, f)
      ensures f in Migrations(a.files) <==> f in a.files && MigrationPath(f)
      ensures f in Migrations(b.files) <==> f in b.files && MigrationPath(f)
      ensures f in files <==> f in Elements(files)
    {
    }
  }

  function Place(kind: Kind): nat {
    match kind
    case FileOverlap => 0
    case AdjacentLines => 1
    case Migration => 2
    case Dependency => 3
  }

  // ---- symmetric, determined, and never half empty

  lemma AdjacentSymmetric(a: seq<Hunks.LineRange>, b: seq<Hunks.LineRange>)
    ensures Adjacent(a, b) <==> Adjacent(b, a)
  {
    hide Hunks.Wrap;
    if Adjacent(a, b) {
      var i, j :| 0 <= i < |a| && 0 <= j < |b| && Near(a[i], b[j]);
      assert Near(b[j], a[i]);
    }
    if Adjacent(b, a) {
      var i, j :| 0 <= i < |b| && 0 <= j < |a| && Near(b[i], a[j]);
      assert Near(a[j], b[i]);
    }
  }

  /** Whichever side comes first, the kinds and the file list are the same, element by element. */
  lemma OverlapSymmetric(a: ChangeSet, b: ChangeSet, kinds: seq<Kind>, files: seq<string>,
                         kinds': seq<Kind>, files': seq<string>)
    requires IsOverlap(a, b, kinds, files) && IsOverlap(b, a, kinds', files')
    ensures kinds == kinds' && files == files'
  {
    hide Strict, Adjacent, MigrationPath, Manifest, Base;
    assert Shared(a, b) == Shared(b, a);
    forall f | f in Shared(a, b)
      ensures Adjacent(RangesOf(a, f), RangesOf(b, f)) <==> Adjacent(RangesOf(b, f), RangesOf(a, f))
    {
      AdjacentSymmetric(RangesOf(a, f), RangesOf(b, f));
    }
    assert SharesAdjacentLines(a, b) == SharesAdjacentLines(b, a);
    assert FilesOf(a, b) == FilesOf(b, a);
    StrictUnique(files, files');
  }

  /** An overlap always names a file, and a named file always has a reason. */
  lemma KindsIffFiles(a: ChangeSet, b: ChangeSet, kinds: seq<Kind>, files: seq<string>)
    requires IsOverlap(a, b, kinds, files)
    ensures kinds == [] <==> files == []
  {
    hide Strict, Adjacent, MigrationPath, Manifest, Base;
    ElementsEmpty(files);
    if BothMigrate(a, b) {
      assert Migrations(a.files) <= FilesOf(a, b);
    }
  }

  // ---- what adjacency means in lines

  predicate WellFormed(r: Hunks.LineRange) {
    r.start <= r.end <= MAX_INT64 - ADJACENCY_WINDOW && -MAX_INT64 <= r.start
  }

  predicate Within(x: int, y: int) {
    x - 3 <= y <= x + 3
  }

  predicate LineOf(r: Hunks.LineRange, x: int) {
    r.start <= x <= r.end
  }

  /** Some line of one range is close to some line of the other. */
  ghost predicate LinesNear(a: Hunks.LineRange, b: Hunks.LineRange) {
    exists x, y :: LineOf(a, x) && LineOf(b, y) && Within(x, y)
  }

  lemma NearIffLines(a: Hunks.LineRange, b: Hunks.LineRange)
    requires WellFormed(a) && WellFormed(b)
    ensures Near(a, b) <==> LinesNear(a, b)
  {
    if Near(a, b) {
      if a.end < b.start {
        assert LineOf(a, a.end) && LineOf(b, b.start) && Within(a.end, b.start);
      } else if b.end < a.start {
        assert LineOf(a, a.start) && LineOf(b, b.end) && Within(a.start, b.end);
      } else {
        var x := if a.start < b.start then b.start else a.start;
        assert LineOf(a, x) && LineOf(b, x) && Within(x, x);
      }
    }
  }

  /** On well-formed ranges the test says exactly that some lines of the two sides are at most three apart. */
  lemma AdjacentIffLines(a: seq<Hunks.LineRange>, b: seq<Hunks.LineRange>)
    requires (forall r <- a :: WellFormed(r)) && (forall r <- b :: WellFormed(r))
    ensures Adjacent(a, b) <==> exists r <- a, s <- b :: LinesNear(r, s)
  {
    hide Near, LinesNear, WellFormed;
    forall i, j | 0 <= i < |a| && 0 <= j < |b|
      ensures Near(a[i], b[j]) <==> LinesNear(a[i], b[j])
    {
      NearIffLines(a[i], b[j]);
    }
    if exists r <- a, s <- b :: LinesNear(r, s) {
      var r, s :| r in a && s in b && LinesNear(r, s);
      var i :| 0 <= i < |a| && a[i] == r;
      var j :| 0 <= j < |b| && b[j] == s;
    }
  }
}
