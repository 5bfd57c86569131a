/**
 * Where an object lives in the folders and where it is shown: the search for
 * the source lines that hold a point (`find_files_with_xy`), the rewrite of
 * their `xy=` field after a drag (`update_xy_in_files`), and the join of
 * `obraz.txt` back to the folder records by nearest position
 * (`load_display_data`).
 */
module Matching {
  import opened Wrappers
  import opened Text
  import opened Numbers
  import opened Fs
  import opened Records
  import opened Snapshot

  /** `OBJECTS_DIR`: the folder holding one folder per agent. */
  const ObjectsDir: Path := ["obiekty"]

  // ---------------------------------------------------------------------------
  // the search for a point
  // ---------------------------------------------------------------------------

  /** A line the search found: where it is, what it says (stripped) and the point it names. */
  datatype Match = Match(file: Path, lineNo: nat, content: string, x: real, y: real, agent: string)

  /** `abs(a - b) < 0.1`: the search tolerance, strict. */
  predicate Near(a: real, b: real) {
    -0.1 < a - b < 0.1
  }

  /**
   * The point a stripped line names for the search: it mentions `xy=` in any
   * case, and the first two words of its `xy` value (commas read as blanks)
   * are numbers. A line that does not qualify is skipped (None).
   */
  function SearchXY(line: string): (r: Option<(real, real)>)
    ensures r.Some? ==> Contains(Lower(line), "xy=") && "xy" in Fields(Split(line, '|'))
    ensures r.Some? ==> |Words(Fields(Split(line, '|'))["xy"])| >= 2
  {
    if !Contains(Lower(line), "xy=") then None
    else
      var data := Fields(Split(line, '|'));
      if "xy" !in data then None
      else
        var ws := Words(data["xy"]);
        if |ws| < 2 then None
        else
          match (ParseNumber(ws[0]), ParseNumber(ws[1]))
          case (Some(a), Some(b)) => Some((Value(a), Value(b)))
          case _ => None
  }

  /** The check `find_files_with_xy` makes of line `n` of a file. */
  function MatchLine(tx: real, ty: real, path: Path, n: nat, raw: string, agent: string): (r: Option<Match>)
    ensures r.Some? ==> r.value.file == path && r.value.lineNo == n && r.value.agent == agent
    ensures r.Some? ==> r.value.content == Strip(raw) && r.value.content != []
    ensures r.Some? ==> SearchXY(r.value.content) == Some((r.value.x, r.value.y))
    ensures r.Some? ==> Near(r.value.x, tx) && Near(r.value.y, ty)
  {
    var line := Strip(raw);
    if line == [] then None
    else
      match SearchXY(line)
      case None => None
      case Some(p) =>
        if Near(p.0, tx) && Near(p.1, ty) then Some(Match(path, n, line, p.0, p.1, agent)) else None
  }

  /**
   * `r` is what `f` finds among `lines[i..]`, in file order, `f` being given
   * each line with its number counted from 1: every item is what `f` makes of
   * its line, and every line `f` finds something in is among them.
   */
  ghost predicate Scanned(f: (nat, string) -> Option<Match>, lines: seq<string>, i: nat, r: seq<Match>)
    requires i <= |lines|
  {
    && (forall k :: 0 <= k < |r| ==> i < r[k].lineNo <= |lines| && f(r[k].lineNo, lines[r[k].lineNo - 1]) == Some(r[k]))
    && (forall k, l :: 0 <= k < l < |r| ==> r[k].lineNo < r[l].lineNo)
    && (forall j :: i <= j < |lines| && f(j + 1, lines[j]).Some? ==> f(j + 1, lines[j]).value in r)
  }

  /** The items `f` finds among `lines[i..]`. */
  function Scan(f: (nat, string) -> Option<Match>, lines: seq<string>, i: nat): (r: seq<Match>)
    requires i <= |lines|
    requires forall n, raw :: f(n, raw).Some? ==> f(n, raw).value.lineNo == n
    ensures Scanned(f, lines, i, r)
    decreases |lines| - i
  {
    if i == |lines| then []
    else
      var rest := Scan(f, lines, i + 1);
      match f(i + 1, lines[i])
      case None => ScanSkip(f, lines, i, rest); rest
      case Some(m) => ScanKeep(f, lines, i, m, rest); [m] + rest
  }

  lemma ScanSkip(f: (nat, string) -> Option<Match>, lines: seq<string>, i: nat, rest: seq<Match>)
    requires i < |lines| && f(i + 1, lines[i]).None? && Scanned(f, lines, i + 1, rest)
    ensures Scanned(f, lines, i, rest)
  {
  }

  lemma ScanKeep(f: (nat, string) -> Option<Match>, lines: seq<string>, i: nat, m: Match, rest: seq<Match>)
    requires forall n, raw :: f(n, raw).Some? ==> f(n, raw).value.lineNo == n
    requires i < |lines| && f(i + 1, lines[i]) == Some(m) && Scanned(f, lines, i + 1, rest)
    ensures Scanned(f, lines, i, [m] + rest)
  {
    assert m.lineNo == i + 1;
    ScanKeepFound(f, lines, i, m, rest);
    ScanKeepOrdered(lines, i, m, rest);
    ScanKeepCovers(f, lines, i, m, rest);
  }

  lemma ScanKeepFound(f: (nat, string) -> Option<Match>, lines: seq<string>, i: nat, m: Match, rest: seq<Match>)
    requires i < |lines| && m.lineNo == i + 1 && f(i + 1, lines[i]) == Some(m)
    requires forall k :: 0 <= k < |rest| ==> i + 1 < rest[k].lineNo <= |lines| && f(rest[k].lineNo, lines[rest[k].lineNo - 1]) == Some(rest[k])
    ensures var r := [m] + rest;
            forall k :: 0 <= k < |r| ==> i < r[k].lineNo <= |lines| && f(r[k].lineNo, lines[r[k].lineNo - 1]) == Some(r[k])
  {
    var r := [m] + rest;
    forall k | 0 <= k < |r|
      ensures i < r[k].lineNo <= |lines| && f(r[k].lineNo, lines[r[k].lineNo - 1]) == Some(r[k])
    {
      if k > 0 { assert r[k] == rest[k - 1]; }
    }
  }

  lemma ScanKeepOrdered(lines: seq<string>, i: nat, m: Match, rest: seq<Match>)
    requires m.lineNo == i + 1
    requires forall k :: 0 <= k < |rest| ==> i + 1 < rest[k].lineNo
    requires forall k, l :: 0 <= k < l < |rest| ==> rest[k].lineNo < rest[l].lineNo
    ensures var r := [m] + rest;
            forall k, l :: 0 <= k < l < |r| ==> r[k].lineNo < r[l].lineNo
  {
    var r := [m] + rest;
    forall k, l | 0 <= k < l < |r|
      ensures r[k].lineNo < r[l].lineNo
    {
      assert r[l] == rest[l - 1];
      if k > 0 { assert r[k] == rest[k - 1]; }
    }
  }

  lemma ScanKeepCovers(f: (nat, string) -> Option<Match>, lines: seq<string>, i: nat, m: Match, rest: seq<Match>)
    requires i < |lines| && f(i + 1, lines[i]) == Some(m)
    requires forall j :: i + 1 <= j < |lines| && f(j + 1, lines[j]).Some? ==> f(j + 1, lines[j]).value in rest
    ensures forall j :: i <= j < |lines| && f(j + 1, lines[j]).Some? ==> f(j + 1, lines[j]).value in [m] + rest
  {
  }

  /** The line check for one file. */
  function LineCheck(tx: real, ty: real, path: Path, agent: string): (f: (nat, string) -> Option<Match>)
    ensures forall n, raw :: f(n, raw).Some? ==> f(n, raw).value.lineNo == n
  {
    (n: nat, raw: string) => MatchLine(tx, ty, path, n, raw, agent)
  }

  /** The matches in one file: every line that matches, numbered from 1, in file order. */
  function FileMatches(tx: real, ty: real, path: Path, lines: seq<string>, agent: string): seq<Match> {
    Scan(LineCheck(tx, ty, path, agent), lines, 0)
  }

  /** `Path.suffix`: from the last dot of the name, unless that dot is its first or last character. */
  function Suffix(name: string): (r: string)
    ensures r == [] || (r[0] == '.' && |r| >= 2)
  {
    var i := LastDot(name);
    if 0 < i < |name| - 1 then name[i..] else ""
  }

  /** Index of the last `.` in `s`, or -1. */
  function LastDot(s: string): (k: int)
    ensures -1 <= k < |s|
    ensures k >= 0 ==> s[k] == '.'
    ensures forall i :: k < i < |s| ==> s[i] != '.'
  {
    if s == [] then -1 else if s[|s| - 1] == '.' then |s| - 1 else LastDot(s[..|s| - 1])
  }

  /** A file in `mapa_dane/` the search reads: suffix `.txt` in any case, or none. */
  predicate DataFile(t: Tree, p: Path) {
    IsFile(t, p) && (Lower(Suffix(Name(p))) == ".txt" || Suffix(Name(p)) == "")
  }

  /** A file directly in the agent folder the search reads: suffix `.txt` in any case. */
  predicate TextFile(t: Tree, p: Path) {
    IsFile(t, p) && Lower(Suffix(Name(p))) == ".txt"
  }

  function DataFiles(t: Tree, ps: seq<Path>): (r: seq<Path>)
    ensures forall k :: 0 <= k < |r| ==> r[k] in ps && DataFile(t, r[k])
    ensures forall p :: p in r <==> p in ps && DataFile(t, p)
  {
    if ps == [] then []
    else (if DataFile(t, ps[0]) then [ps[0]] else []) + DataFiles(t, ps[1..])
  }

  function TextFiles(t: Tree, ps: seq<Path>): (r: seq<Path>)
    ensures forall k :: 0 <= k < |r| ==> r[k] in ps && TextFile(t, r[k])
    ensures forall p :: p in r <==> p in ps && TextFile(t, p)
  {
    if ps == [] then []
    else (if TextFile(t, ps[0]) then [ps[0]] else []) + TextFiles(t, ps[1..])
  }

  /** Appends each of `fs` not yet in `locs`. */
  function AddNew(locs: seq<Path>, fs: seq<Path>): (r: seq<Path>)
    ensures forall p :: p in r <==> p in locs || p in fs
    decreases |fs|
  {
    if fs == [] then locs
    else AddNew(if fs[0] in locs then locs else locs + [fs[0]], fs[1..])
  }

  /**
   * The files the search reads in agent folder `a`, in order: `mapa_dane.txt`,
   * the data files of `mapa_dane/`, then the other `.txt` files. None when
   * listing a folder raises (`mapa_dane` or `a` is not a folder), which ends
   * the whole search.
   */
  function Locations(t: Tree, a: Path): (r: Option<seq<Path>>)
    ensures r.Some? ==> IsDir(t, a)
  {
    var first := if Exists(t, a + ["mapa_dane.txt"]) then [a + ["mapa_dane.txt"]] else [];
    var folder := a + ["mapa_dane"];
    if Exists(t, folder) && !IsDir(t, folder) then None
    else if !IsDir(t, a) then None
    else
      var inner := if Exists(t, folder) then DataFiles(t, Children(t, folder)) else [];
      Some(AddNew(first + inner, TextFiles(t, Children(t, a))))
  }

  /**
   * A file the search reads in agent folder `a`: `mapa_dane.txt` when it
   * exists, a data file listed in `mapa_dane/`, or a `.txt` file listed in `a`.
   */
  predicate Searched(t: Tree, a: Path, p: Path) {
    || (p == a + ["mapa_dane.txt"] && Exists(t, p))
    || (IsDir(t, a + ["mapa_dane"]) && p in Children(t, a + ["mapa_dane"]) && DataFile(t, p))
    || (p in Children(t, a) && TextFile(t, p))
  }

  /** The listing of an agent folder raises exactly in the two cases named; otherwise it holds exactly the files searched. */
  lemma LocationsSpec(t: Tree, a: Path)
    ensures Locations(t, a).None? <==> (Exists(t, a + ["mapa_dane"]) && !IsDir(t, a + ["mapa_dane"])) || !IsDir(t, a)
    ensures Locations(t, a).Some? ==> forall p :: p in Locations(t, a).value <==> Searched(t, a, p)
  {
    var folder := a + ["mapa_dane"];
    if Locations(t, a).Some? {
      var first := if Exists(t, a + ["mapa_dane.txt"]) then [a + ["mapa_dane.txt"]] else [];
      var inner := if Exists(t, folder) then DataFiles(t, Children(t, folder)) else [];
      assert Exists(t, folder) ==> IsDir(t, folder);
      assert IsDir(t, folder) ==> Exists(t, folder);
      forall p ensures p in first + inner <==> (p == a + ["mapa_dane.txt"] && Exists(t, p)) || (IsDir(t, folder) && p in Children(t, folder) && DataFile(t, p)) {
      }
    }
  }

  /** The agent folders: the folders directly in `OBJECTS_DIR`, in listing order. */
  function Dirs(t: Tree, ps: seq<Path>): (r: seq<Path>)
    ensures forall k :: 0 <= k < |r| ==> r[k] in ps && IsDir(t, r[k])
    ensures forall p :: p in r <==> p in ps && IsDir(t, p)
  {
    if ps == [] then []
    else (if IsDir(t, ps[0]) then [ps[0]] else []) + Dirs(t, ps[1..])
  }

  /** The line `m` names in the tree says what `m` records. */
  predicate Found(t: Tree, tx: real, ty: real, m: Match) {
    && ReadText(t, m.file).Some?
    && var lines := SplitLines(ReadText(t, m.file).value);
    && 1 <= m.lineNo <= |lines|
    && MatchLine(tx, ty, m.file, m.lineNo, lines[m.lineNo - 1], m.agent) == Some(m)
  }

  /** Every match in `r` is found in the tree, in one of `locs`, for `agent`. */
  ghost predicate AllFound(t: Tree, tx: real, ty: real, r: seq<Match>, locs: seq<Path>, agent: string) {
    forall k :: 0 <= k < |r| ==> Found(t, tx, ty, r[k]) && r[k].file in locs && r[k].agent == agent
  }

  /** The matches in file `p`; none when it cannot be read. */
  function ReadMatches(t: Tree, tx: real, ty: real, p: Path, agent: string): seq<Match> {
    match ReadText(t, p)
    case None => []
    case Some(text) => FileMatches(tx, ty, p, SplitLines(text), agent)
  }

  /** The matches in the files `locs`, read in order; a file that cannot be read is skipped. */
  function FilesMatches(t: Tree, tx: real, ty: real, locs: seq<Path>, agent: string): (r: seq<Match>)
    ensures AllFound(t, tx, ty, r, locs, agent)
  {
    if locs == [] then []
    else
      var here := ReadMatches(t, tx, ty, locs[0], agent);
      var rest := FilesMatches(t, tx, ty, locs[1..], agent);
      ReadMatchesFound(t, tx, ty, locs[0], agent);
      FilesMatchesStep(t, tx, ty, locs, agent, here, rest);
      here + rest
  }

  lemma ReadMatchesFound(t: Tree, tx: real, ty: real, p: Path, agent: string)
    ensures AllFound(t, tx, ty, ReadMatches(t, tx, ty, p, agent), [p], agent)
  {
    if ReadText(t, p).Some? {
      FileMatchesFound(t, tx, ty, p, ReadText(t, p).value, agent);
    }
  }

  lemma FileMatchesFound(t: Tree, tx: real, ty: real, p: Path, text: string, agent: string)
    requires ReadText(t, p) == Some(text)
    ensures AllFound(t, tx, ty, FileMatches(tx, ty, p, SplitLines(text), agent), [p], agent)
  {
    var lines := SplitLines(text);
    var f := LineCheck(tx, ty, p, agent);
    var r := FileMatches(tx, ty, p, lines, agent);
    assert Scanned(f, lines, 0, r);
    forall k | 0 <= k < |r|
      ensures Found(t, tx, ty, r[k]) && r[k].file in [p] && r[k].agent == agent
    {
      assert MatchLine(tx, ty, p, r[k].lineNo, lines[r[k].lineNo - 1], agent) == Some(r[k]);
    }
  }

  lemma FilesMatchesStep(t: Tree, tx: real, ty: real, locs: seq<Path>, agent: string, here: seq<Match>, rest: seq<Match>)
    requires locs != []
    requires AllFound(t, tx, ty, here, [locs[0]], agent)
    requires AllFound(t, tx, ty, rest, locs[1..], agent)
    ensures AllFound(t, tx, ty, here + rest, locs, agent)
  {
    var r := here + rest;
    forall k | 0 <= k < |r|
      ensures Found(t, tx, ty, r[k]) && r[k].file in locs && r[k].agent == agent
    {
      if k < |here| {
        assert r[k] == here[k];
      } else {
        assert r[k] == rest[k - |here|];
        assert r[k].file in locs[1..];
      }
    }
  }

  /** Every matching line of every readable file among `locs` is among the matches. */
  lemma {:induction false} FilesMatchesComplete(t: Tree, tx: real, ty: real, locs: seq<Path>, agent: string, i: nat, n: nat)
    requires i < |locs| && ReadText(t, locs[i]).Some?
    requires 1 <= n <= |SplitLines(ReadText(t, locs[i]).value)|
    requires MatchLine(tx, ty, locs[i], n, SplitLines(ReadText(t, locs[i]).value)[n - 1], agent).Some?
    ensures MatchLine(tx, ty, locs[i], n, SplitLines(ReadText(t, locs[i]).value)[n - 1], agent).value
            in FilesMatches(t, tx, ty, locs, agent)
    decreases |locs|
  {
    var r := FilesMatches(t, tx, ty, locs, agent);
    var here := ReadMatches(t, tx, ty, locs[0], agent);
    var rest := FilesMatches(t, tx, ty, locs[1..], agent);
    assert r == here + rest;
    if i == 0 {
      var lines := SplitLines(ReadText(t, locs[0]).value);
      var f := LineCheck(tx, ty, locs[0], agent);
      assert Scanned(f, lines, 0, here);
      assert f(n - 1 + 1, lines[n - 1]) == MatchLine(tx, ty, locs[0], n, lines[n - 1], agent);
    } else {
      assert locs[1..][i - 1] == locs[i];
      FilesMatchesComplete(t, tx, ty, locs[1..], agent, i - 1, n);
    }
  }

  /** The matches in the agent folders `paths`, in order, up to the first folder whose listing raises. */
  function SearchFrom(t: Tree, tx: real, ty: real, paths: seq<Path>): (r: seq<Match>)
    ensures forall k :: 0 <= k < |r| ==> Found(t, tx, ty, r[k])
    ensures |paths| == 1 ==> forall k :: 0 <= k < |r| ==> r[k].agent == Name(paths[0])
  {
    if paths == [] then []
    else
      match Locations(t, paths[0])
      case None => []
      case Some(locs) => FilesMatches(t, tx, ty, locs, Name(paths[0])) + SearchFrom(t, tx, ty, paths[1..])
  }

  /** `f` holds of each of `s[..i + 1]`, stated one element at a time. */
  ghost predicate PrefixAll<T>(f: T -> bool, s: seq<T>, i: nat)
    decreases i
  {
    && i < |s|
    && f(s[0])
    && (i > 0 ==> PrefixAll(f, s[1..], i - 1))
  }

  lemma {:induction false} PrefixAllOf<T>(f: T -> bool, s: seq<T>, i: nat)
    requires i < |s| && forall h :: 0 <= h <= i ==> f(s[h])
    ensures PrefixAll(f, s, i)
    decreases i
  {
    if i > 0 {
      var tail := s[1..];
      forall h | 0 <= h <= i - 1 ensures f(tail[h]) {
        assert tail[h] == s[h + 1];
      }
      PrefixAllOf(f, tail, i - 1);
    }
  }

  /** Listing folder `a` does not raise. */
  function Listable(t: Tree): Path -> bool {
    a => Locations(t, a).Some?
  }

  /** No folder among `paths[..i + 1]` makes the listing raise. */
  ghost predicate ListedUpTo(t: Tree, paths: seq<Path>, i: nat)
    decreases i
  {
    && i < |paths|
    && Locations(t, paths[0]).Some?
    && (i > 0 ==> ListedUpTo(t, paths[1..], i - 1))
  }

  lemma {:induction false} ListedOfPrefix(t: Tree, paths: seq<Path>, i: nat)
    requires PrefixAll(Listable(t), paths, i)
    ensures ListedUpTo(t, paths, i)
    decreases i
  {
    assert Listable(t)(paths[0]);
    if i > 0 {
      ListedOfPrefix(t, paths[1..], i - 1);
    }
  }

  lemma ListedUpToAll(t: Tree, paths: seq<Path>, i: nat)
    requires i < |paths| && forall h :: 0 <= h <= i ==> Locations(t, paths[h]).Some?
    ensures ListedUpTo(t, paths, i)
  {
    var f := Listable(t);
    forall h | 0 <= h <= i ensures f(paths[h]) {
      assert Locations(t, paths[h]).Some?;
    }
    PrefixAllOf(f, paths, i);
    ListedOfPrefix(t, paths, i);
  }

  lemma InConcat<T>(x: T, a: seq<T>, b: seq<T>)
    requires x in a || x in b
    ensures x in a + b
  {
  }

  lemma SearchFromHead(t: Tree, tx: real, ty: real, paths: seq<Path>, m: Match)
    requires paths != [] && Locations(t, paths[0]).Some?
    requires m in FilesMatches(t, tx, ty, Locations(t, paths[0]).value, Name(paths[0]))
    ensures m in SearchFrom(t, tx, ty, paths)
  {
    InConcat(m, FilesMatches(t, tx, ty, Locations(t, paths[0]).value, Name(paths[0])), SearchFrom(t, tx, ty, paths[1..]));
  }

  lemma SearchFromStep(t: Tree, tx: real, ty: real, paths: seq<Path>, m: Match)
    requires paths != [] && Locations(t, paths[0]).Some?
    requires m in SearchFrom(t, tx, ty, paths[1..])
    ensures m in SearchFrom(t, tx, ty, paths)
  {
    InConcat(m, FilesMatches(t, tx, ty, Locations(t, paths[0]).value, Name(paths[0])), SearchFrom(t, tx, ty, paths[1..]));
  }

  /**
   * The matches of folder `paths[i]` are all among the matches of the
   * search, provided no folder up to `paths[i]` raised when listed.
   */
  lemma {:induction false} SearchFromIncludes(t: Tree, tx: real, ty: real, paths: seq<Path>, i: nat, m: Match)
    requires ListedUpTo(t, paths, i) && Locations(t, paths[i]).Some?
    requires m in FilesMatches(t, tx, ty, Locations(t, paths[i]).value, Name(paths[i]))
    ensures m in SearchFrom(t, tx, ty, paths)
    decreases |paths|
  {
    if i == 0 {
      SearchFromHead(t, tx, ty, paths, m);
    } else {
      SearchFromIncludes(t, tx, ty, paths[1..], i - 1, m);
      SearchFromStep(t, tx, ty, paths, m);
    }
  }

  /** Every matching line of a file searched in agent folder `a` is among that folder's matches. */
  lemma LocationMatchFound(t: Tree, tx: real, ty: real, a: Path, p: Path, n: nat)
    requires Locations(t, a).Some? && Searched(t, a, p) && ReadText(t, p).Some?
    requires 1 <= n <= |SplitLines(ReadText(t, p).value)|
    requires MatchLine(tx, ty, p, n, SplitLines(ReadText(t, p).value)[n - 1], Name(a)).Some?
    ensures MatchLine(tx, ty, p, n, SplitLines(ReadText(t, p).value)[n - 1], Name(a)).value
            in FilesMatches(t, tx, ty, Locations(t, a).value, Name(a))
  {
    var locs := Locations(t, a).value;
    LocationsSpec(t, a);
    assert p in locs;
    var k :| 0 <= k < |locs| && locs[k] == p;
    FilesMatchesComplete(t, tx, ty, locs, Name(a), k, n);
  }

  /** The agent folders searched: the named one when it exists, or every folder in `OBJECTS_DIR`. */
  function SearchedAgents(t: Tree, agent: string): (r: seq<Path>)
    ensures agent != "" ==> |r| <= 1 && forall k :: 0 <= k < |r| ==> Name(r[k]) == agent
    ensures agent != "" ==> (r == [] <==> !Exists(t, ObjectsDir + [agent]))
    ensures agent == "" ==> forall a :: a in r <==> a in Children(t, ObjectsDir) && IsDir(t, a)
  {
    if agent != "" then
      var a := ObjectsDir + [agent];
      assert Name(a) == agent;
      if Exists(t, a) then [a] else []
    else Dirs(t, Children(t, ObjectsDir))
  }

  /**
   * `find_files_with_xy(target_x, target_y, target_agent)`: every line found
   * is a line of a file in the tree that names a point within 0.1 of the
   * target on both axes; with an agent given, only that agent's folder is
   * searched, and nothing when it does not exist.
   */
  function FindFilesWithXY(t: Tree, tx: real, ty: real, agent: string): (r: seq<Match>)
    ensures forall k :: 0 <= k < |r| ==> Found(t, tx, ty, r[k]) && Near(r[k].x, tx) && Near(r[k].y, ty)
    ensures agent != "" ==> forall k :: 0 <= k < |r| ==> r[k].agent == agent
    ensures agent != "" && !Exists(t, ObjectsDir + [agent]) ==> r == []
  {
    SearchFrom(t, tx, ty, SearchedAgents(t, agent))
  }

  /**
   * Conversely, every matching line is returned: a line of a file searched in
   * the `i`-th agent folder, when no folder up to that one raised on listing.
   */
  lemma FindFilesWithXYComplete(t: Tree, tx: real, ty: real, agent: string, i: nat, p: Path, n: nat)
    requires i < |SearchedAgents(t, agent)|
    requires forall h :: 0 <= h <= i ==> Locations(t, SearchedAgents(t, agent)[h]).Some?
    requires Searched(t, SearchedAgents(t, agent)[i], p) && ReadText(t, p).Some?
    requires 1 <= n <= |SplitLines(ReadText(t, p).value)|
    requires MatchLine(tx, ty, p, n, SplitLines(ReadText(t, p).value)[n - 1], Name(SearchedAgents(t, agent)[i])).Some?
    ensures MatchLine(tx, ty, p, n, SplitLines(ReadText(t, p).value)[n - 1], Name(SearchedAgents(t, agent)[i])).value
            in FindFilesWithXY(t, tx, ty, agent)
  {
    var paths := SearchedAgents(t, agent);
    LocationMatchFound(t, tx, ty, paths[i], p, n);
    ListedUpToAll(t, paths, i);
    SearchFromIncludes(t, tx, ty, paths, i, MatchLine(tx, ty, p, n, SplitLines(ReadText(t, p).value)[n - 1], Name(paths[i])).value);
  }

  /** A line `xy=X Y` written with rounded coordinates is found by a search for that point. */
  lemma PointLineFound(x: real, y: real, path: Path, n: nat, agent: string)
    ensures MatchLine(Round(x) as real, Round(y) as real, path, n, XYPart(x, y), agent)
              == Some(Match(path, n, XYPart(x, y), Round(x) as real, Round(y) as real, agent))
  {
    PointTextPlain(x, y);
    XYPartText(PointText(x, y));
    XYLineStripped(PointText(x, y));
    PointSearch(x, y);
    LineFound(Round(x) as real, Round(y) as real, path, n, XYPart(x, y), agent, Round(x) as real, Round(y) as real);
  }

  /** A stripped line that names a point near the target is found, as it stands. */
  lemma LineFound(tx: real, ty: real, path: Path, n: nat, line: string, agent: string, x: real, y: real)
    requires line != [] && Strip(line) == line
    requires SearchXY(line) == Some((x, y)) && Near(x, tx) && Near(y, ty)
    ensures MatchLine(tx, ty, path, n, line, agent) == Some(Match(path, n, line, x, y, agent))
  {
  }

  /** What the search reads in the line `xy=<t>`. */
  lemma XYLine(t: string)
    requires Field(t)
    ensures var line := "xy=" + t;
            && line != [] && Strip(line) == line
            && Contains(Lower(line), "xy=")
            && Split(line, '|') == [line]
            && "xy" in Fields([line]) && Fields([line])["xy"] == t
  {
    XYLineStripped(t);
    XYLineMentions(t);
    XYLineFields(t);
  }

  lemma XYLineStripped(t: string)
    requires Field(t)
    ensures Strip("xy=" + t) == "xy=" + t
  {
    var line := "xy=" + t;
    assert line[0] == 'x';
    assert t != [] ==> line[|line| - 1] == t[|t| - 1];
    StripOfStripped(line);
  }

  lemma XYLineMentions(t: string)
    ensures Contains(Lower("xy=" + t), "xy=")
  {
    LowerAppend("xy=", t);
    assert Lower("xy=") == "xy=";
    assert Lower("xy=" + t)[..3] == "xy=";
  }

  lemma XYLineFields(t: string)
    requires Field(t)
    ensures Split("xy=" + t, '|') == ["xy=" + t]
    ensures "xy" in Fields(["xy=" + t]) && Fields(["xy=" + t])["xy"] == t
  {
    var line := "xy=" + t;
    assert line == Part("xy", t);
    PartKeyField("xy", t);
    assert '|' !in line by {
      forall i | 0 <= i < |line| ensures line[i] != '|' {
        if i >= 3 {
          assert line[i] == t[i - 3];
        }
      }
    }
    SplitNoSep(line, '|');
    assert KeyValues([line]) == [Some(("xy", t))];
    DictLastWins(KeyValues([line]), 0, "xy");
  }

  /** A line `xy=<t>` whose value has two number words is read as those two numbers. */
  lemma SearchXYLine(t: string, a: string, b: string, da: Dec, db: Dec)
    requires Field(t) && Words(t) == [a, b]
    requires ParseNumber(a) == Some(da) && ParseNumber(b) == Some(db)
    ensures SearchXY("xy=" + t) == Some((Value(da), Value(db)))
  {
    XYLine(t);
  }

  lemma XYPartText(t: string)
    ensures Part("xy", t) == "xy=" + t
  {
  }

  /** The search reads the rounded point from `xy=X Y`. */
  lemma PointSearch(x: real, y: real)
    ensures SearchXY(XYPart(x, y)) == Some((Round(x) as real, Round(y) as real))
  {
    XYPartText(PointText(x, y));
    PointSearchDec(x, y);
    ValueOfInt(Round(x));
    ValueOfInt(Round(y));
  }

  lemma PointSearchDec(x: real, y: real)
    ensures SearchXY("xy=" + PointText(x, y)) == Some((Value(Dec(Round(x), 0)), Value(Dec(Round(y), 0))))
  {
    var t := PointText(x, y);
    PointTextPlain(x, y);
    WordsPoint(x, y);
    SearchXYLine(t, IntToString(Round(x)), IntToString(Round(y)), Dec(Round(x), 0), Dec(Round(y), 0));
  }

  /** The words of a point text are its two numbers. */
  lemma WordsPoint(x: real, y: real)
    ensures Words(PointText(x, y)) == [IntToString(Round(x)), IntToString(Round(y))]
    ensures ParseNumber(IntToString(Round(x))) == Some(Dec(Round(x), 0))
    ensures ParseNumber(IntToString(Round(y))) == Some(Dec(Round(y), 0))
  {
    IntToStringShape(Round(x));
    IntToStringShape(Round(y));
    WordsPair(IntToString(Round(x)), IntToString(Round(y)));
    IntToStringParse(Round(x));
    IntToStringParse(Round(y));
  }

  // ---------------------------------------------------------------------------
  // rewriting the xy field
  // ---------------------------------------------------------------------------

  /** A part the rewrite replaces: stripped and lowercased, it starts with `xy=`. */
  predicate IsXYPart(p: string) {
    StartsWith(Lower(Strip(p)), "xy=")
  }

  /** `f"xy={int(round(new_x))} {int(round(new_y))}"`. */
  function XYPart(x: real, y: real): string {
    Part("xy", PointText(x, y))
  }

  /** The parts of a line after the rewrite: every `xy=` part replaced, every other part kept. */
  function RewriteParts(ps: seq<string>, x: real, y: real): (r: seq<string>)
    ensures |r| == |ps|
    ensures forall k :: 0 <= k < |ps| ==> r[k] == if IsXYPart(ps[k]) then XYPart(x, y) else ps[k]
  {
    if ps == [] then []
    else [if IsXYPart(ps[0]) then XYPart(x, y) else ps[0]] + RewriteParts(ps[1..], x, y)
  }

  /** The matched line after the rewrite. */
  function RewriteLine(line: string, x: real, y: real): string {
    Join(RewriteParts(Split(line, '|'), x, y), "|")
  }

  lemma XYPartPlain(x: real, y: real)
    ensures PlainPart(XYPart(x, y)) && Field(PointText(x, y))
  {
    PointTextPlain(x, y);
    PartPlain("xy", PointText(x, y));
  }

  /** The rewritten line splits back into the rewritten parts. */
  lemma RewriteLineParts(line: string, x: real, y: real)
    ensures Split(RewriteLine(line, x, y), '|') == RewriteParts(Split(line, '|'), x, y)
  {
    XYPartPlain(x, y);
    SplitJoin(RewriteParts(Split(line, '|'), x, y), '|');
  }

  /** A line without breaks stays without breaks. */
  lemma RewriteLineNoBreak(line: string, x: real, y: real)
    requires NoLineBreak(line)
    ensures NoLineBreak(RewriteLine(line, x, y))
  {
    XYPartPlain(x, y);
    SplitNoLineBreak(line, '|');
    NoLineBreakJoin(RewriteParts(Split(line, '|'), x, y), "|");
  }

  /**
   * When the last part of the line that assigns `xy` is an `xy=` part, the
   * rewritten line assigns `xy` the new point, and reading it gives the new
   * point rounded.
   */
  lemma RewriteReadsBack(line: string, x: real, y: real, j: nat)
    requires j < |Split(line, '|')| && IsXYPart(Split(line, '|')[j])
    requires forall i :: j < i < |Split(line, '|')| ==>
               !IsXYPart(Split(line, '|')[i]) && !Sets(KeyValue(Split(line, '|')[i]), "xy")
    ensures var m := Fields(Split(RewriteLine(line, x, y), '|'));
            && "xy" in m && m["xy"] == PointText(x, y)
            && ParseXY(m["xy"]) == Ok((Round(x) as real, Round(y) as real))
  {
    var ps := Split(line, '|');
    var qs := RewriteParts(ps, x, y);
    RewriteLineParts(line, x, y);
    RewriteLast(ps, x, y, j);
    XYPartPlain(x, y);
    LastXYWins(qs, j, PointText(x, y));
    PointTextRead(x, y);
  }

  /** After the rewrite, part `j` is the new `xy=` part and the parts after it assign no `xy`. */
  lemma RewriteLast(ps: seq<string>, x: real, y: real, j: nat)
    requires j < |ps| && IsXYPart(ps[j])
    requires forall i :: j < i < |ps| ==> !IsXYPart(ps[i]) && !Sets(KeyValue(ps[i]), "xy")
    ensures RewriteParts(ps, x, y)[j] == XYPart(x, y)
    ensures forall i :: j < i < |ps| ==> !Sets(KeyValue(RewriteParts(ps, x, y)[i]), "xy")
  {
  }

  /**
   * A part that sets `xy` without starting with `xy=` once stripped and
   * lowercased (`xy =3 4`) is kept by the rewrite; when it is the last part
   * setting `xy`, the rewritten line still reads as its old value.
   */
  lemma RewriteKeepsSpacedXY(line: string, x: real, y: real, j: nat)
    requires j < |Split(line, '|')|
    requires !IsXYPart(Split(line, '|')[j]) && Sets(KeyValue(Split(line, '|')[j]), "xy")
    requires forall i :: j < i < |Split(line, '|')| ==>
               !IsXYPart(Split(line, '|')[i]) && !Sets(KeyValue(Split(line, '|')[i]), "xy")
    ensures var m := Fields(Split(RewriteLine(line, x, y), '|'));
            "xy" in m && m["xy"] == KeyValue(Split(line, '|')[j]).value.1
  {
    var ps := Split(line, '|');
    var qs := RewriteParts(ps, x, y);
    RewriteLineParts(line, x, y);
    assert qs[j] == ps[j];
    assert forall i :: j < i < |qs| ==> qs[i] == ps[i];
    FieldsLastWins(qs, j, "xy");
  }

  /** A part `xy=<t>` followed by no other assignment of `xy` decides the value of `xy`. */
  lemma LastXYWins(qs: seq<string>, j: nat, t: string)
    requires Field(t) && j < |qs| && qs[j] == Part("xy", t)
    requires forall i :: j < i < |qs| ==> !Sets(KeyValue(qs[i]), "xy")
    ensures "xy" in Fields(qs) && Fields(qs)["xy"] == t
  {
    PartKeyField("xy", t);
    FieldsLastWins(qs, j, "xy");
  }

  /** `LineIndex(lines, n)`: where `lines[n - 1]` points, after the guard `n - 1 < len(lines)`. */
  function LineIndex(lines: seq<string>, n: nat): (r: Option<nat>)
    ensures r.Some? ==> r.value < |lines|
    ensures 1 <= n <= |lines| ==> r == Some(n - 1)
  {
    if n >= 1 then (if n - 1 < |lines| then Some(n - 1) else None)
    else if |lines| > 0 then Some(|lines| - 1)  // line 0 is index -1: the last line
    else None                                   // and on no lines it raises
  }

  /**
   * The text `update_xy_in_files` writes for a match at line `n`: None when
   * the line is gone or no longer mentions `xy=`.
   */
  function UpdatedText(text: string, n: nat, x: real, y: real): (r: Option<string>)
  {
    var lines := SplitLines(text);
    match LineIndex(lines, n)
    case None => None
    case Some(k) =>
      if !Contains(Lower(lines[k]), "xy=") then None
      else Some(Join(lines[k := RewriteLine(lines[k], x, y)], "\n"))
  }

  /**
   * Reading the updated file back: the matched line rewritten, every other line
   * as it was (a last line left empty is lost, the file no longer ending in a
   * line break).
   */
  lemma UpdatedTextLines(text: string, n: nat, x: real, y: real)
    requires UpdatedText(text, n, x, y).Some?
    ensures var lines := SplitLines(text);
            var k := LineIndex(lines, n).value;
            var out := SplitLines(UpdatedText(text, n, x, y).value);
            && |lines| - 1 <= |out| <= |lines|
            && (forall i :: 0 <= i < |out| && i != k ==> out[i] == lines[i])
            && (k < |out| ==> out[k] == RewriteLine(lines[k], x, y))
  {
    var lines := SplitLines(text);
    var k := LineIndex(lines, n).value;
    var next := lines[k := RewriteLine(lines[k], x, y)];
    RewriteLineNoBreak(lines[k], x, y);
    assert forall i :: 0 <= i < |next| ==> NoLineBreak(next[i]);
    SplitLinesJoin(next);
  }

  /** The text one match of `update_xy_in_files` writes to its file, or None when it writes nothing. */
  function UpdateEdit(t: Tree, m: Match, x: real, y: real): Option<string> {
    match ReadText(t, m.file)
    case None => None
    case Some(text) => UpdatedText(text, m.lineNo, x, y)
  }

  /** The edit `update_xy_in_files` makes for each match. */
  function XYEditor(x: real, y: real): (Tree, Match) -> Option<string> {
    (t: Tree, m: Match) => UpdateEdit(t, m, x, y)
  }

  lemma EditorIs(x: real, y: real, t: Tree, m: Match)
    ensures XYEditor(x, y)(t, m) == UpdateEdit(t, m, x, y)
  {
  }

  /**
   * The matches handled in order, each seeing the files as the ones before
   * left them: the tree at the end and how many writes were made.
   */
  function Writes(e: (Tree, Match) -> Option<string>, t: Tree, ms: seq<Match>, now: int): (r: (Tree, nat))
    ensures r.1 <= |ms|
    decreases |ms|
  {
    if ms == [] then (t, 0)
    else WriteStep(e, Writes(e, t, ms[..|ms| - 1], now), ms[|ms| - 1], now)
  }

  /** One match handled: its file written back when the edit gives a text, one write counted. */
  function WriteStep(e: (Tree, Match) -> Option<string>, before: (Tree, nat), m: Match, now: int): (r: (Tree, nat))
    ensures r.1 <= before.1 + 1
  {
    match e(before.0, m)
    case None => before
    case Some(out) => (Put(before.0, m.file, File(out, now)), before.1 + 1)
  }

  lemma WritesLast(e: (Tree, Match) -> Option<string>, t: Tree, ms: seq<Match>, i: nat, now: int)
    requires i < |ms|
    ensures Writes(e, t, ms[..i + 1], now) == WriteStep(e, Writes(e, t, ms[..i], now), ms[i], now)
  {
    assert ms[..i + 1][..i] == ms[..i];
  }

  /**
   * `update_xy_in_files(matching_files, new_x, new_y)`: each match re-reads its
   * file and, when its line is still there and mentions `xy=`, writes the file
   * back with that line rewritten; the count is of the writes made, at most
   * one per match.
   */
  method UpdateXYInFiles(disk: Disk, ms: seq<Match>, x: real, y: real, now: int) returns (count: nat)
    requires disk.Valid()
    modifies disk
    ensures disk.Valid()
    ensures (disk.tree, count) == Writes(XYEditor(x, y), old(disk.tree), ms, now)
    ensures count <= |ms|
  {
    count := 0;
    var i := 0;
    ghost var t0 := disk.tree;
    while i < |ms|
      invariant 0 <= i <= |ms|
      invariant disk.Valid()
      invariant (disk.tree, count) == Writes(XYEditor(x, y), t0, ms[..i], now)
    {
      WritesLast(XYEditor(x, y), t0, ms, i, now);
      count := UpdateXYInFile(disk, ms[i], x, y, now, count);
      i := i + 1;
    }
    assert ms[..|ms|] == ms;
  }

  /** One match of `update_xy_in_files`: the file re-read, its line rewritten and written back, the write counted. */
  method UpdateXYInFile(disk: Disk, m: Match, x: real, y: real, now: int, count: nat) returns (count': nat)
    requires disk.Valid()
    modifies disk
    ensures disk.Valid()
    ensures (disk.tree, count') == WriteStep(XYEditor(x, y), (old(disk.tree), count), m, now)
  {
    XYStep(disk.tree, count, m, x, y, now);
    var out := UpdateEdit(disk.tree, m, x, y);
    count' := count;
    if out.Some? {
      disk.WriteText(m.file, out.value, now);
      count' := count + 1;
    }
  }

  lemma XYStep(t: Tree, count: nat, m: Match, x: real, y: real, now: int)
    ensures WriteStep(XYEditor(x, y), (t, count), m, now)
         == if UpdateEdit(t, m, x, y).Some?
            then (Put(t, m.file, File(UpdateEdit(t, m, x, y).value, now)), count + 1)
            else (t, count)
  {
    EditorIs(x, y, t, m);
  }

  /** Files no match names are left as they were. */
  lemma {:induction false} WritesKeepOthers(e: (Tree, Match) -> Option<string>, t: Tree, ms: seq<Match>, now: int, q: Path)
    requires forall k :: 0 <= k < |ms| ==> ms[k].file != q
    ensures NodeAt(Writes(e, t, ms, now).0, q) == NodeAt(t, q)
    decreases |ms|
  {
    if ms != [] {
      var before := Writes(e, t, ms[..|ms| - 1], now);
      WritesKeepOthers(e, t, ms[..|ms| - 1], now, q);
      var m := ms[|ms| - 1];
      if e(before.0, m).Some? {
        PutRead(before.0, m.file, File(e(before.0, m).value, now), q);
      }
    }
  }

  /** A single match rewrites its line: reading the file back gives the text the edit made. */
  lemma OneWrite(t: Tree, m: Match, x: real, y: real, now: int)
    requires UpdateEdit(t, m, x, y).Some?
    ensures var after := Writes(XYEditor(x, y), t, [m], now);
            && after.1 == 1
            && ReadText(after.0, m.file) == UpdatedText(ReadText(t, m.file).value, m.lineNo, x, y)
  {
    var out := UpdateEdit(t, m, x, y).value;
    assert [m][..0] == [];
    PutRead(t, m.file, File(out, now), m.file);
  }

  // ---------------------------------------------------------------------------
  // joining obraz.txt to the folder records
  // ---------------------------------------------------------------------------

  /** `TOL`: how far, on each axis, a shown object may be from its source. */
  const Tol: real := 0.51

  function RAbs(v: real): real {
    if v < 0.0 then -v else v
  }

  /** `dx <= TOL and dy <= TOL`. */
  predicate Within(x: real, y: real, s: ObjectRecord) {
    RAbs(s.x - x) <= Tol && RAbs(s.y - y) <= Tol
  }

  /** `dx + dy`. */
  function Dist(x: real, y: real, s: ObjectRecord): real {
    RAbs(s.x - x) + RAbs(s.y - y)
  }

  /** The source `load_display_data` picks for a point, as its loop computes it over `ss` in order. */
  function Nearest(x: real, y: real, ss: seq<ObjectRecord>): (r: Option<nat>)
    ensures r.Some? ==> r.value < |ss|
    decreases |ss|
  {
    if ss == [] then None
    else
      var last := |ss| - 1;
      var b := Nearest(x, y, ss[..last]);
      if Within(x, y, ss[last]) && (b.None? || Dist(x, y, ss[last]) < Dist(x, y, ss[b.value])) then Some(last)
      else b
  }

  /**
   * What the pick is: None exactly when no source is within the tolerance;
   * otherwise a source within it, nearer than every source before it and no
   * farther than any after it.
   */
  lemma {:induction false} NearestSpec(x: real, y: real, ss: seq<ObjectRecord>)
    ensures Nearest(x, y, ss).None? <==> forall j :: 0 <= j < |ss| ==> !Within(x, y, ss[j])
    ensures Nearest(x, y, ss).Some? ==> Within(x, y, ss[Nearest(x, y, ss).value])
    ensures Nearest(x, y, ss).Some? ==> var i := Nearest(x, y, ss).value;
              forall j :: 0 <= j < |ss| && Within(x, y, ss[j]) ==>
                Dist(x, y, ss[i]) <= Dist(x, y, ss[j]) && (j < i ==> Dist(x, y, ss[i]) < Dist(x, y, ss[j]))
    decreases |ss|
  {
    if ss != [] {
      var last := |ss| - 1;
      var init := ss[..last];
      NearestSpec(x, y, init);
      assert forall j :: 0 <= j < last ==> ss[j] == init[j];
    }
  }

  /** The best-so-far loop of `load_display_data` for one point. */
  method NearestSource(x: real, y: real, ss: seq<ObjectRecord>) returns (r: Option<nat>)
    ensures r == Nearest(x, y, ss)
  {
    r := None;
    var best := 1000000000.0;
    for i := 0 to |ss|
      invariant r == Nearest(x, y, ss[..i])
      invariant r.Some? ==> r.value < i && best == Dist(x, y, ss[r.value])
      invariant r.None? ==> best == 1000000000.0
    {
      assert ss[..i + 1][..i] == ss[..i];
      assert ss[..i + 1][i] == ss[i];
      var s := ss[i];
      var dx := RAbs(s.x - x);
      var dy := RAbs(s.y - y);
      if dx <= Tol && dy <= Tol {
        var d := dx + dy;
        if d < best {
          best := d;
          r := Some(i);
        }
      }
    }
    assert ss[..|ss|] == ss;
  }

  /** An `obraz.txt` record with the source it was joined to. */
  datatype Display = Display(rec: ObjectRecord, source: ObjectRecord)

  /** What one record of `obraz.txt` contributes: itself, given its source's agent folder, or nothing. */
  function JoinOne(r: ObjectRecord, ss: seq<ObjectRecord>): seq<Display> {
    match Nearest(r.x, r.y, ss)
    case None => []
    case Some(j) => [Display(r.(agentFolder := ss[j].agentFolder), ss[j])]
  }

  /** The records of `obraz.txt` joined to their sources; a record with no source near enough is dropped. */
  function Joined(rs: seq<ObjectRecord>, ss: seq<ObjectRecord>): (r: seq<Display>)
    ensures |r| <= |rs|
    ensures forall k :: 0 <= k < |r| ==> r[k].source in ss && r[k].rec.agentFolder == r[k].source.agentFolder
    decreases |rs|
  {
    if rs == [] then [] else Joined(rs[..|rs| - 1], ss) + JoinOne(rs[|rs| - 1], ss)
  }

  /**
   * `load_display_data(path)` over the source cache `ss` (its values in
   * insertion order): nothing when the file is missing or a number in it
   * does not parse.
   */
  function DisplayData(t: Tree, path: Path, ss: seq<ObjectRecord>): seq<Display> {
    match ReadText(t, path)
    case None => []
    case Some(text) =>
      match ParseSourceFile(path, SplitLines(text), "")
      case BadNumber(_) => []
      case Ok(rs) => Joined(rs, ss)
  }

  method LoadDisplayData(t: Tree, path: Path, ss: seq<ObjectRecord>) returns (out: seq<Display>)
    ensures out == DisplayData(t, path, ss)
  {
    out := [];
    var text := ReadText(t, path);
    if text.None? {
      return;
    }
    var parsed := ParseSourceFile(path, SplitLines(text.value), "");
    if parsed.BadNumber? {
      return;
    }
    var rs := parsed.value;
    assert DisplayData(t, path, ss) == Joined(rs, ss);
    out := JoinAll(rs, ss);
  }

  /** The loop of `load_display_data` over the parsed records. */
  method JoinAll(rs: seq<ObjectRecord>, ss: seq<ObjectRecord>) returns (out: seq<Display>)
    ensures out == Joined(rs, ss)
  {
    out := [];
    for i := 0 to |rs|
      invariant out == Joined(rs[..i], ss)
    {
      JoinedStep(rs, ss, i);
      var j := NearestSource(rs[i].x, rs[i].y, ss);
      if j.Some? {
        var s := ss[j.value];
        out := out + [Display(rs[i].(agentFolder := s.agentFolder), s)];
      }
    }
    assert rs[..|rs|] == rs;
  }

  lemma JoinedStep(rs: seq<ObjectRecord>, ss: seq<ObjectRecord>, i: nat)
    requires i < |rs|
    ensures Joined(rs[..i + 1], ss) == Joined(rs[..i], ss) + JoinOne(rs[i], ss)
  {
    assert rs[..i + 1][..i] == rs[..i];
  }

  /** Every record shown lies within the tolerance of the source it was joined to. */
  lemma {:induction false} JoinedWithin(rs: seq<ObjectRecord>, ss: seq<ObjectRecord>)
    ensures forall k :: 0 <= k < |Joined(rs, ss)| ==> Within(Joined(rs, ss)[k].rec.x, Joined(rs, ss)[k].rec.y, Joined(rs, ss)[k].source)
    decreases |rs|
  {
    if rs != [] {
      var r := rs[|rs| - 1];
      JoinedWithin(rs[..|rs| - 1], ss);
      NearestSpec(r.x, r.y, ss);
    }
  }

  /** When every record has a source near enough, none is dropped and each keeps its own fields. */
  lemma {:induction false} JoinedAll(rs: seq<ObjectRecord>, ss: seq<ObjectRecord>)
    requires forall i :: 0 <= i < |rs| ==> Nearest(rs[i].x, rs[i].y, ss).Some?
    ensures |Joined(rs, ss)| == |rs|
    ensures forall k :: 0 <= k < |rs| ==> Joined(rs, ss)[k].rec == rs[k].(agentFolder := Joined(rs, ss)[k].source.agentFolder)
    decreases |rs|
  {
    if rs != [] {
      var init := rs[..|rs| - 1];
      assert forall i :: 0 <= i < |init| ==> init[i] == rs[i];
      JoinedAll(init, ss);
      var prev := Joined(init, ss);
      var last := JoinOne(rs[|rs| - 1], ss);
      var j := Nearest(rs[|rs| - 1].x, rs[|rs| - 1].y, ss).value;
      assert last == [Display(rs[|rs| - 1].(agentFolder := ss[j].agentFolder), ss[j])];
      var out := Joined(rs, ss);
      assert out == prev + last;
      forall k | 0 <= k < |rs| ensures out[k].rec == rs[k].(agentFolder := out[k].source.agentFolder) {
        if k < |init| {
          assert out[k] == prev[k];
        } else {
          assert out[k] == last[0];
        }
      }
    }
  }

  /**
   * The rounding `write_obraz` applies stays inside the tolerance: when
   * `obraz.txt` was written from the source records themselves, every object
   * is shown, each with the icon, size and state it was written with.
   */
  lemma ObrazShowsAll(t: Tree, path: Path, ss: seq<ObjectRecord>)
    requires IsObraz(path)
    requires forall k :: 0 <= k < |ss| ==> Snapshotable(ss[k])
    requires ReadText(t, path) == Some(ObrazText(ss))
    ensures var out := DisplayData(t, path, ss);
            && |out| == |ss|
            && forall k :: 0 <= k < |ss| ==>
                 out[k].rec == Reread(ss[k], k + 1, path).(agentFolder := out[k].source.agentFolder)
  {
    var rs := Rereads(ss, path);
    ObrazRoundTrip(ss, path);
    assert DisplayData(t, path, ss) == Joined(rs, ss);
    RereadsNear(ss, path);
    JoinedAll(rs, ss);
  }

  /** A record read back from `obraz.txt` lies within the tolerance of the record it was written from. */
  lemma RereadsNear(ss: seq<ObjectRecord>, path: Path)
    ensures forall i :: 0 <= i < |ss| ==> Nearest(Rereads(ss, path)[i].x, Rereads(ss, path)[i].y, ss).Some?
  {
    var rs := Rereads(ss, path);
    forall i | 0 <= i < |ss| ensures Nearest(rs[i].x, rs[i].y, ss).Some? {
      assert Within(rs[i].x, rs[i].y, ss[i]);
      NearestSpec(rs[i].x, rs[i].y, ss);
    }
  }
}
