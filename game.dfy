/** The string rules of the game catalogue (game.cpp): archive path normalisation, the
    course-file filter and its labels, the name tables, and the tileset suites. The Qt item
    models become sequences of rows; files and directory listings become parameters. */
module Game {
  import opened Wrappers
  import opened Text

  // ---------------------------------------------------------------------------------------
  // Archive paths (getTileset, getLevelManager)

  /** `dir + name`, with ".sarc" appended unless it already ends so. */
  function ArchivePath(dir: string, name: string): (path: string)
    ensures EndsWith(path, ".sarc")
    ensures StartsWith(path, dir + name)
  {
    var p := dir + name;
    if EndsWith(p, ".sarc") then p else p + ".sarc"
  }

  function TilesetPath(name: string): string { ArchivePath("/Unit/", name) }

  function LevelPath(path: string): string { ArchivePath("/Course/", path) }

  /** A directory prefix ending in '/' cannot supply any character of a suffix without '/'. */
  lemma DirSuffix(dir: string, name: string, suffix: string)
    requires |dir| > 0 && dir[|dir| - 1] == '/'
    requires '/' !in suffix
    ensures EndsWith(dir + name, suffix) <==> EndsWith(name, suffix)
  {
    var p := dir + name;
    if EndsWith(name, suffix) {
      assert p[|p| - |suffix|..] == name[|name| - |suffix|..];
    }
    if |name| < |suffix| <= |p| {
      var j := |dir| - 1 - (|p| - |suffix|);
      assert p[|p| - |suffix|..][j] == p[|dir| - 1] == '/';
    }
    if EndsWith(p, suffix) {
      assert p[|p| - |suffix|..] == name[|name| - |suffix|..];
    }
  }

  /** Writing the extension or leaving it off names the same archive. */
  lemma SuffixOptional(dir: string, name: string)
    requires !EndsWith(dir + name, ".sarc")
    ensures ArchivePath(dir, name) == ArchivePath(dir, name + ".sarc")
  {
    assert dir + (name + ".sarc") == (dir + name) + ".sarc";
    var q := dir + name + ".sarc";
    assert q[|q| - 5..] == ".sarc";
  }

  /** Normalisation never doubles the extension: the path ends in ".sarc.sarc" exactly when
      the given name already did. */
  lemma NoDoubleSuffix(dir: string, name: string)
    requires |dir| > 0 && dir[|dir| - 1] == '/'
    ensures EndsWith(ArchivePath(dir, name), ".sarc.sarc") <==> EndsWith(name, ".sarc.sarc")
  {
    var p := dir + name;
    DirSuffix(dir, name, ".sarc.sarc");
    if !EndsWith(p, ".sarc") {
      var q := p + ".sarc";
      if |q| >= 10 {
        assert q[|q| - 10..][..5] == p[|p| - 5..];
      }
      if |p| >= 10 {
        assert p[|p| - 10..][5..] == p[|p| - 5..];
      }
    }
  }

  datatype Tileset = Tileset(name: string)

  /** `Game::getTileset`: fails when the normalised path is missing; the tileset is made from
      the name as given. Construction of the tileset itself is not part of this model. */
  function GetTileset(tilesetExists: string -> bool, name: string): (r: Result<Tileset>)
    ensures r.Ok? <==> tilesetExists(TilesetPath(name))
    ensures r.Ok? ==> r.value.name == name
    ensures r.Err? ==> r.error == FileNotFound
  {
    if tilesetExists(TilesetPath(name)) then Ok(Tileset(name)) else Err(FileNotFound)
  }

  /** `Game::getLevelManager`: the path the level manager opens, or the missing-file error. */
  function GetLevelManager(levelExists: string -> bool, path: string): (r: Result<string>)
    ensures r.Ok? ==> StartsWith(r.value, "/Course/" + path) && EndsWith(r.value, ".sarc") && levelExists(r.value)
    ensures r.Ok? ==> r.value == LevelPath(path)
    ensures r.Err? <==> !levelExists(LevelPath(path))
    ensures r.Err? ==> r.error == FileNotFound
  {
    var p := LevelPath(path);
    if levelExists(p) then Ok(p) else Err(FileNotFound)
  }

  // ---------------------------------------------------------------------------------------
  // Course files and their labels (getCourseModel)

  /** Length of the run of digits that starts `s`. */
  function LeadingDigits(s: string): (n: nat)
    ensures n <= |s|
    ensures AllDigits(s[..n])
    ensures n < |s| ==> !IsDigit(s[n])
  {
    if s == [] || !IsDigit(s[0]) then 0
    else
      var m := LeadingDigits(s[1..]);
      assert s[..m + 1] == [s[0]] + s[1..][..m];
      m + 1
  }

  lemma {:induction false} LeadingDigitsOf(digits: string, rest: string)
    requires AllDigits(digits)
    requires rest == [] || !IsDigit(rest[0])
    ensures LeadingDigits(digits + rest) == |digits|
  {
    if digits != [] {
      LeadingDigitsOf(digits[1..], rest);
      assert (digits + rest)[1..] == digits[1..] + rest;
    } else {
      assert digits + rest == rest;
    }
  }

  /** The pattern `^\d+-\d+\.sarc$`, matched by hand. */
  predicate IsCourseFileName(f: string)
  {
    EndsWith(f, ".sarc") &&
    var stem := f[..|f| - 5];
    var n := LeadingDigits(stem);
    0 < n && n + 1 < |stem| && stem[n] == '-' && AllDigits(stem[n + 1..])
  }

  /** The same pattern, stated as what it accepts. */
  ghost predicate CoursePattern(f: string)
  {
    exists world, level :: IsNumber(world) && IsNumber(level) && f == world + "-" + level + ".sarc"
  }

  lemma CourseFileNameMatches(f: string)
    ensures IsCourseFileName(f) <==> CoursePattern(f)
  {
    if IsCourseFileName(f) {
      var stem := f[..|f| - 5];
      var n := LeadingDigits(stem);
      var world, level := stem[..n], stem[n + 1..];
      assert stem == world + "-" + level;
      assert f == stem + f[|f| - 5..];
      assert IsNumber(world) && IsNumber(level) && f == world + "-" + level + ".sarc";
    }
    if CoursePattern(f) {
      var world, level :| IsNumber(world) && IsNumber(level) && f == world + "-" + level + ".sarc";
      var stem := world + "-" + level;
      assert f[..|f| - 5] == stem;
      assert f[|f| - 5..] == ".sarc";
      assert stem == world + ("-" + level);
      LeadingDigitsOf(world, "-" + level);
      assert LeadingDigits(stem) == |world|;
      assert stem[|world|] == '-';
      assert stem[|world| + 1..] == level;
      assert AllDigits(stem[|world| + 1..]);
      assert EndsWith(f, ".sarc");
      assert 0 < LeadingDigits(stem) && LeadingDigits(stem) + 1 < |stem|;
    }
  }

  function CourseStem(f: string): string { Split(f, '.')[0] }

  function WorldNumber(f: string): string { Split(CourseStem(f), '-')[0] }

  lemma {:induction false} NoSeparator(s: string, sep: char)
    requires sep !in s
    ensures Split(s, sep) == [s]
  {
    assert forall j :: 0 <= j < |s| ==> s[j] != sep;
  }

  /** For `world-level.sarc`, the stem is `world-level` and splitting it on '-' gives the
      two numbers. */
  lemma CourseNumbers(f: string, world: string, level: string)
    requires IsNumber(world) && IsNumber(level) && f == world + "-" + level + ".sarc"
    ensures CourseStem(f) == world + "-" + level
    ensures Split(CourseStem(f), '-') == [world, level]
  {
    var stem := world + "-" + level;
    assert forall j :: 0 <= j < |stem| ==> stem[j] != '.' by {
      forall j | 0 <= j < |stem| ensures stem[j] != '.' {
        if j < |world| { assert stem[j] == world[j]; }
        else if j > |world| { assert stem[j] == level[j - |world| - 1]; }
      }
    }
    var i := IndexOf(f, '.');
    assert f[|stem|] == '.';
    assert f[..|stem|] == stem;
    assert i == |stem|;
    assert f[..i] == stem;
    var j := IndexOf(stem, '-');
    assert stem[|world|] == '-';
    assert forall k :: 0 <= k < |world| ==> stem[k] == world[k];
    assert j == |world|;
    assert stem[..j] == world;
    assert stem[j + 1..] == level;
    assert forall k :: 0 <= k < |level| ==> level[k] != '-';
    NoSeparator(level, '-');
  }

  lemma CourseSplit(f: string)
    requires IsCourseFileName(f)
    ensures |Split(CourseStem(f), '-')| == 2
    ensures IsNumber(WorldNumber(f)) && IsNumber(Split(CourseStem(f), '-')[1])
  {
    CourseFileNameMatches(f);
    var world, level :| IsNumber(world) && IsNumber(level) && f == world + "-" + level + ".sarc";
    CourseNumbers(f, world, level);
  }

  function LevelNumber(f: string): string
    requires IsCourseFileName(f)
  {
    CourseSplit(f);
    Split(CourseStem(f), '-')[1]
  }

  /** `QMap::value(key)`: the empty string for a missing key. */
  function Lookup(table: map<int, string>, key: int): string
  {
    if key in table then table[key] else ""
  }

  /** `QString::arg(value)` on a name template, replacing each "%1" marker. */
  function ArgReplace(template: string, value: string): (r: string)
    ensures |template| < 2 ==> r == template
    ensures StartsWith(template, "%1") ==> StartsWith(r, value)
    ensures template != "" && value != "" ==> r != ""
  {
    if |template| < 2 then template
    else if template[0] == '%' && template[1] == '1' then value + ArgReplace(template[2..], value)
    else [template[0]] + ArgReplace(template[1..], value)
  }

  /** The world label: the world-names entry for the world number, or the number itself. */
  function WorldLabel(worldNames: map<int, string>, f: string): string
  {
    var name := Lookup(worldNames, ToInt(WorldNumber(f)));
    if name == "" then WorldNumber(f) else name
  }

  /** The level label: the level-names template filled with the world label, or the file name. */
  function LevelLabel(levelNames: map<int, string>, worldLabel: string, f: string): string
    requires IsCourseFileName(f)
  {
    var name := ArgReplace(Lookup(levelNames, ToInt(LevelNumber(f))), worldLabel);
    if name == "" then f else name
  }

  /** A template without any '%' is used as it stands. */
  lemma {:induction false} ArgReplaceNoMarker(template: string, value: string)
    requires '%' !in template
    ensures ArgReplace(template, value) == template
  {
    if |template| >= 2 {
      assert template[0] != '%';
      assert forall k :: 0 <= k < |template[1..]| ==> template[1..][k] == template[k + 1];
      ArgReplaceNoMarker(template[1..], value);
    }
  }

  lemma CourseLabels(f: string, world: string, level: string,
                     worldNames: map<int, string>, levelNames: map<int, string>, worldLabel: string)
    requires IsNumber(world) && IsNumber(level) && f == world + "-" + level + ".sarc"
    ensures IsCourseFileName(f)
    ensures WorldNumber(f) == world && LevelNumber(f) == level
    ensures WorldLabel(worldNames, f) ==
              if ToInt(world) in worldNames && worldNames[ToInt(world)] != ""
              then worldNames[ToInt(world)] else world
    ensures WorldLabel(worldNames, f) != ""
    ensures LevelLabel(levelNames, worldLabel, f) != ""
    ensures (ToInt(level) !in levelNames || levelNames[ToInt(level)] == "") ==>
              LevelLabel(levelNames, worldLabel, f) == f
    ensures ToInt(level) in levelNames && levelNames[ToInt(level)] != "" && worldLabel != "" ==>
              LevelLabel(levelNames, worldLabel, f) == ArgReplace(levelNames[ToInt(level)], worldLabel)
    ensures ToInt(level) in levelNames && levelNames[ToInt(level)] != "" && '%' !in levelNames[ToInt(level)] ==>
              LevelLabel(levelNames, worldLabel, f) == levelNames[ToInt(level)]
  {
    CourseFileNameMatches(f);
    CourseNumbers(f, world, level);
    var key := ToInt(level);
    if key in levelNames && levelNames[key] != "" {
      if '%' !in levelNames[key] {
        ArgReplaceNoMarker(levelNames[key], worldLabel);
      }
    }
  }

  /** One course entry: its world label, its level label and the path stored with it. */
  datatype CourseRow = CourseRow(world: string, title: string, path: string)

  function CourseRowFor(dir: string, f: string, worldNames: map<int, string>, levelNames: map<int, string>): CourseRow
    requires IsCourseFileName(f)
  {
    var world := WorldLabel(worldNames, f);
    CourseRow(world, LevelLabel(levelNames, world, f), if dir != "" then dir + "/" + f else f)
  }

  /** The file names that pass the course-file filter, in listing order. */
  function CourseFiles(files: seq<string>): (m: seq<string>)
    ensures forall k :: 0 <= k < |m| ==> IsCourseFileName(m[k]) && m[k] in files
    ensures forall i :: 0 <= i < |files| && IsCourseFileName(files[i]) ==> files[i] in m
  {
    if files == [] then []
    else
      var rest := CourseFiles(files[..|files| - 1]);
      var f := files[|files| - 1];
      assert forall i :: 0 <= i < |files| - 1 ==> files[..|files| - 1][i] == files[i];
      if IsCourseFileName(f) then rest + [f] else rest
  }

  /** Filtering a listing made of two parts filters each part and keeps them in order. */
  lemma {:induction false} CourseFilesAppend(a: seq<string>, b: seq<string>)
    ensures CourseFiles(a + b) == CourseFiles(a) + CourseFiles(b)
  {
    if b == [] {
      assert a + b == a;
    } else {
      var last := b[|b| - 1];
      assert (a + b)[..|a + b| - 1] == a + b[..|b| - 1];
      assert (a + b)[|a + b| - 1] == last;
      CourseFilesAppend(a, b[..|b| - 1]);
    }
  }

  /** A single name is kept exactly when it passes the filter. */
  lemma CourseFilesOne(f: string)
    ensures CourseFiles([f]) == if IsCourseFileName(f) then [f] else []
  {
    assert [f][..0] == [];
  }

  /** The rows one directory contributes to the course tree (the world grouping and the final
      sort are Qt presentation and are not modelled). */
  method ListCourses(dir: string, files: seq<string>, worldNames: map<int, string>, levelNames: map<int, string>)
    returns (rows: seq<CourseRow>)
    ensures |rows| == |CourseFiles(files)|
    ensures forall k :: 0 <= k < |rows| ==> rows[k] == CourseRowFor(dir, CourseFiles(files)[k], worldNames, levelNames)
  {
    rows := [];
    ghost var accepted: seq<string> := [];
    for i := 0 to |files|
      invariant accepted == CourseFiles(files[..i])
      invariant |rows| == |accepted|
      invariant forall k :: 0 <= k < |rows| ==>
                  IsCourseFileName(accepted[k]) && rows[k] == CourseRowFor(dir, accepted[k], worldNames, levelNames)
    {
      var f := files[i];
      assert files[..i + 1][..i] == files[..i];
      if IsCourseFileName(f) {
        var world := WorldLabel(worldNames, f);
        rows := rows + [CourseRow(world, LevelLabel(levelNames, world, f), if dir != "" then dir + "/" + f else f)];
        accepted := accepted + [f];
      }
    }
    assert files[..|files|] == files;
  }

  // ---------------------------------------------------------------------------------------
  // Name tables (levelnames.txt, worldnames.txt, tilesetnames.txt)

  /** A `number:name` line of the level and world tables; any other line is ignored. */
  function NameEntry(line: string): Option<(int, string)>
  {
    var parts := Split(line, ':');
    if |parts| == 2 then Some((ToInt(parts[0]), parts[1])) else None
  }

  /** A line is used exactly when it holds a single ':', and then it is key text, ':', name. */
  lemma NameEntryShape(line: string)
    ensures NameEntry(line).Some? <==> Count(line, ':') == 1
    ensures NameEntry(line).Some? ==> line == Split(line, ':')[0] + ":" + NameEntry(line).value.1
  {
    SplitLength(line, ':');
    JoinSplit(line, ':');
    var parts := Split(line, ':');
    if |parts| == 2 {
      assert parts[1..] == [parts[1]];
    }
  }

  /** The table after inserting every used line in order; a later line replaces an earlier
      one with the same key. */
  function NameTable(lines: seq<string>): map<int, string>
  {
    if lines == [] then map[]
    else
      var table := NameTable(lines[..|lines| - 1]);
      match NameEntry(lines[|lines| - 1])
      case Some((key, name)) => table[key := name]
      case None => table
  }

  method ParseNameTable(lines: seq<string>) returns (table: map<int, string>)
    ensures table == NameTable(lines)
  {
    table := map[];
    var i := 0;
    while i < |lines|
      invariant 0 <= i <= |lines|
      invariant table == NameTable(lines[..i])
    {
      var parts := Split(lines[i], ':');
      if |parts| == 2 {
        table := table[ToInt(parts[0]) := parts[1]];
      }
      assert lines[..i + 1][..i] == lines[..i];
      i := i + 1;
    }
    assert lines[..i] == lines;
  }

  lemma {:induction false} NameTableKeys(lines: seq<string>, key: int)
    ensures key in NameTable(lines) <==>
            exists i :: 0 <= i < |lines| && NameEntry(lines[i]).Some? && NameEntry(lines[i]).value.0 == key
  {
    if lines != [] {
      var prefix := lines[..|lines| - 1];
      NameTableKeys(prefix, key);
      assert forall i :: 0 <= i < |prefix| ==> prefix[i] == lines[i];
      if key in NameTable(lines) && key !in NameTable(prefix) {
        assert NameEntry(lines[|lines| - 1]).value.0 == key;
      }
    }
  }

  /** The name stored for a key comes from the last line that uses that key. */
  lemma {:induction false} NameTableLast(lines: seq<string>, i: nat)
    requires i < |lines| && NameEntry(lines[i]).Some?
    requires forall j :: i < j < |lines| && NameEntry(lines[j]).Some? ==>
               NameEntry(lines[j]).value.0 != NameEntry(lines[i]).value.0
    ensures NameEntry(lines[i]).value.0 in NameTable(lines)
    ensures NameTable(lines)[NameEntry(lines[i]).value.0] == NameEntry(lines[i]).value.1
  {
    if i < |lines| - 1 {
      var prefix := lines[..|lines| - 1];
      assert forall j :: 0 <= j < |prefix| ==> prefix[j] == lines[j];
      NameTableLast(prefix, i);
    }
  }

  /** A `file:name` line of the tileset table; a line without ':' ends the table. Parts after
      the second are ignored. */
  function TilesetNameEntry(line: string): Option<(string, string)>
  {
    var parts := Split(line, ':');
    if |parts| < 2 then None else Some((parts[0], parts[1]))
  }

  /** How many lines are read before the first line that ends the table. */
  function NamesRead(lines: seq<string>): (n: nat)
    ensures n <= |lines|
    ensures forall j :: 0 <= j < n ==> TilesetNameEntry(lines[j]).Some?
    ensures n < |lines| ==> TilesetNameEntry(lines[n]).None?
  {
    if lines == [] || TilesetNameEntry(lines[0]).None? then 0 else 1 + NamesRead(lines[1..])
  }

  function InsertNames(lines: seq<string>): map<string, string>
  {
    if lines == [] then map[]
    else
      var table := InsertNames(lines[..|lines| - 1]);
      match TilesetNameEntry(lines[|lines| - 1])
      case Some((file, name)) => table[file := name]
      case None => table
  }

  /** The tileset display-name table: the lines before the first line with fewer than two parts. */
  function TilesetNames(lines: seq<string>): map<string, string>
  {
    InsertNames(lines[..NamesRead(lines)])
  }

  method ParseTilesetNames(lines: seq<string>) returns (names: map<string, string>)
    ensures names == TilesetNames(lines)
  {
    names := map[];
    var i := 0;
    while i < |lines|
      invariant 0 <= i <= |lines|
      invariant forall j :: 0 <= j < i ==> TilesetNameEntry(lines[j]).Some?
      invariant names == InsertNames(lines[..i])
    {
      var parts := Split(lines[i], ':');
      if |parts| < 2 {
        break;
      }
      names := names[parts[0] := parts[1]];
      assert lines[..i + 1][..i] == lines[..i];
      i := i + 1;
    }
    assert i == NamesRead(lines);
  }

  /** Nothing after a line that ends the table is read. */
  lemma TilesetNamesStop(lines: seq<string>, i: nat)
    requires i < |lines| && TilesetNameEntry(lines[i]).None?
    ensures TilesetNames(lines) == TilesetNames(lines[..i])
  {
    var n := NamesRead(lines);
    var prefix := lines[..i];
    var m := NamesRead(prefix);
    assert forall j :: 0 <= j < |prefix| ==> prefix[j] == lines[j];
    assert n <= i;
    assert m == n;
    assert prefix[..m] == lines[..n];
  }

  // ---------------------------------------------------------------------------------------
  // Tileset suites (both getTilesetModel overloads)

  /** `QString::chop(n)`. */
  function Chop(s: string, n: nat): (r: string)
    ensures |r| == if |s| <= n then 0 else |s| - n
    ensures r == s[..|r|]
  {
    if |s| <= n then "" else s[..|s| - n]
  }

  /** A listed file whose name still ends in ".sarc" after the chop is looked up under its chopped
      key as it stands, which names the archive with one ".sarc" fewer than the listed file. */
  lemma ChopTilesetPathDouble(file: string)
    requires EndsWith(Chop(file, 5), ".sarc")
    ensures TilesetPath(Chop(file, 5)) == "/Unit/" + Chop(file, 5)
    ensures TilesetPath(Chop(file, 5)) != "/Unit/" + file
  {
    var name := Chop(file, 5);
    DirSuffix("/Unit/", name, ".sarc");
    assert |"/Unit/" + name| < |"/Unit/" + file|;
  }

  /** A listed tileset file, stripped of its extension, normalises back to its own path. */
  lemma ChopTilesetPath(file: string)
    requires EndsWith(file, ".sarc") && !EndsWith(Chop(file, 5), ".sarc")
    ensures TilesetPath(Chop(file, 5)) == "/Unit/" + file
  {
    var name := Chop(file, 5);
    assert file == name + ".sarc";
    DirSuffix("/Unit/", name, ".sarc");
    assert "/Unit/" + file == ("/Unit/" + name) + ".sarc";
  }

  /** The suite a tileset belongs to by its prefix: Standard, Stage, Background, Interactive. */
  function SuiteOf(name: string): (s: Option<nat>)
    ensures s.Some? ==> s.value < 4
  {
    if StartsWith(name, "J_") then Some(0)
    else if StartsWith(name, "M_") then Some(1)
    else if StartsWith(name, "S1_") then Some(2)
    else if StartsWith(name, "S2_") then Some(3)
    else None
  }

  /** The tests of the per-suite overload, one per suite id. */
  predicate InModel(id: int, name: string)
  {
    (id == 0 && StartsWith(name, "J_")) || (id == 1 && StartsWith(name, "M_")) ||
    (id == 2 && StartsWith(name, "S1_")) || (id == 3 && StartsWith(name, "S2_"))
  }

  /** The prefixes are disjoint, so the per-suite test agrees with the suite classification. */
  lemma InModelSuite(id: int, name: string)
    ensures InModel(id, name) <==> SuiteOf(name) == Some(id)
  {
    if StartsWith(name, "J_") { assert name[0] == 'J'; }
    if StartsWith(name, "M_") { assert name[0] == 'M'; }
    if StartsWith(name, "S1_") { assert name[0] == 'S' && name[1] == '1'; }
    if StartsWith(name, "S2_") { assert name[0] == 'S' && name[1] == '2'; }
  }

  /** One row of a tileset model: the display name (the first column's data is the key), and
      the file name. */
  datatype TilesetRow = TilesetRow(title: string, key: string, fileName: string)

  const NoneRow: TilesetRow := TilesetRow("<none>", "<none>", "")

  function TilesetRowFor(names: map<string, string>, file: string): TilesetRow
  {
    var name := Chop(file, 5);
    TilesetRow(if name in names then names[name] else name, name, name)
  }

  /** The rows of one suite, in listing order. */
  function SuiteRows(names: map<string, string>, files: seq<string>, suite: nat): seq<TilesetRow>
  {
    if files == [] then []
    else
      var rest := SuiteRows(names, files[..|files| - 1], suite);
      var file := files[|files| - 1];
      if SuiteOf(Chop(file, 5)) == Some(suite) then rest + [TilesetRowFor(names, file)] else rest
  }

  /** The number of files whose prefix belongs to no suite. */
  function Unclassified(files: seq<string>): nat
  {
    if files == [] then 0
    else Unclassified(files[..|files| - 1]) + if SuiteOf(Chop(files[|files| - 1], 5)).None? then 1 else 0
  }

  /** Each file lands in exactly one suite or in none. */
  lemma {:induction false} SuitesPartition(names: map<string, string>, files: seq<string>)
    ensures |SuiteRows(names, files, 0)| + |SuiteRows(names, files, 1)| + |SuiteRows(names, files, 2)|
            + |SuiteRows(names, files, 3)| + Unclassified(files) == |files|
  {
    if files != [] {
      SuitesPartition(names, files[..|files| - 1]);
    }
  }

  /** `getTilesetModel()`: the four suites, or no rows at all when the names file is missing. */
  method TilesetSuites(nameLines: Option<seq<string>>, files: seq<string>) returns (suites: seq<seq<TilesetRow>>)
    ensures nameLines.None? ==> suites == []
    ensures nameLines.Some? ==> |suites| == 4
    ensures nameLines.Some? ==>
              forall s :: 0 <= s < |suites| ==> suites[s] == SuiteRows(TilesetNames(nameLines.value), files, s)
  {
    if nameLines.None? {
      return [];
    }
    var names := ParseTilesetNames(nameLines.value);
    suites := [[], [], [], []];
    for i := 0 to |files|
      invariant |suites| == 4
      invariant forall s :: 0 <= s < 4 ==> suites[s] == SuiteRows(names, files[..i], s)
    {
      assert files[..i + 1][..i] == files[..i];
      var fileName := Chop(files[i], 5);
      var row := TilesetRowFor(names, files[i]);
      if StartsWith(fileName, "J_") {
        suites := suites[0 := suites[0] + [row]];
      } else if StartsWith(fileName, "M_") {
        suites := suites[1 := suites[1] + [row]];
      } else if StartsWith(fileName, "S1_") {
        suites := suites[2 := suites[2] + [row]];
      } else if StartsWith(fileName, "S2_") {
        suites := suites[3 := suites[3] + [row]];
      }
    }
    assert files[..|files|] == files;
  }

  /** The rows the per-suite overload keeps for suite id `id`. */
  function ModelRows(names: map<string, string>, files: seq<string>, id: int): seq<TilesetRow>
  {
    if files == [] then []
    else
      var rest := ModelRows(names, files[..|files| - 1], id);
      var file := files[|files| - 1];
      if InModel(id, Chop(file, 5)) then rest + [TilesetRowFor(names, file)] else rest
  }

  /** `getTilesetModel(id, includeNoneItem)`: nothing when the names file is missing; otherwise
      the "<none>" row first when asked for, then the tilesets of suite `id`. */
  method TilesetModel(nameLines: Option<seq<string>>, files: seq<string>, id: int, includeNoneItem: bool)
    returns (rows: seq<TilesetRow>)
    ensures nameLines.None? ==> rows == []
    ensures nameLines.Some? ==>
              rows == (if includeNoneItem then [NoneRow] else []) + ModelRows(TilesetNames(nameLines.value), files, id)
  {
    if nameLines.None? {
      return [];
    }
    rows := if includeNoneItem then [NoneRow] else [];
    ghost var head := rows;
    var names := ParseTilesetNames(nameLines.value);
    for i := 0 to |files|
      invariant rows == head + ModelRows(names, files[..i], id)
    {
      assert files[..i + 1][..i] == files[..i];
      var fileName := Chop(files[i], 5);
      var row := TilesetRowFor(names, files[i]);
      if id == 0 && StartsWith(fileName, "J_") {
        rows := rows + [row];
      } else if id == 1 && StartsWith(fileName, "M_") {
        rows := rows + [row];
      } else if id == 2 && StartsWith(fileName, "S1_") {
        rows := rows + [row];
      } else if id == 3 && StartsWith(fileName, "S2_") {
        rows := rows + [row];
      }
    }
    assert files[..|files|] == files;
  }

  /** The per-suite overload lists exactly the suite the catalogue overload puts under id,
      and nothing for an id outside 0..3. */
  lemma {:induction false} ModelRowsAreSuite(names: map<string, string>, files: seq<string>, id: int)
    ensures ModelRows(names, files, id) == if 0 <= id < 4 then SuiteRows(names, files, id) else []
  {
    if files != [] {
      ModelRowsAreSuite(names, files[..|files| - 1], id);
      InModelSuite(id, Chop(files[|files| - 1], 5));
    }
  }
}
