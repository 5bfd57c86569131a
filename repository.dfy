/**
 * What the map keeps of its folders: the source cache `load_source_data`
 * fills from `mapa_dane.txt` of every folder of `obiekty`, the connection cache
 * `load_line_source_data` fills from the `linia_dane` files of every folder of `linie`, the two summary
 * files written from those caches, and the signature of the folders the
 * window compares to decide whether to write the summaries again.
 */
module Repository {
  import opened Wrappers
  import opened Text
  import opened Fs
  import opened Records
  import opened Snapshot
  import opened Sorting
  import Matching

  const LinesDir: Path := ["linie"]
  const ObrazPath: Path := ["obraz.txt"]
  const PolaczeniePath: Path := ["polaczenie.txt"]
  const DataName: string := "mapa_dane.txt"
  const CfgPrefix: string := "linia_dane"

  // ---------------------------------------------------------------------------
  // loops that append
  // ---------------------------------------------------------------------------

  /** The items `f` gives for each of `ps`, one after the other. */
  function Concat<P, T>(f: P -> seq<T>, ps: seq<P>): seq<T>
    decreases |ps|
  {
    if ps == [] then [] else Concat(f, ps[..|ps| - 1]) + f(ps[|ps| - 1])
  }

  lemma ConcatStep<P, T>(f: P -> seq<T>, ps: seq<P>, i: nat)
    requires i < |ps|
    ensures Concat(f, ps[..i + 1]) == Concat(f, ps[..i]) + f(ps[i])
  {
    assert ps[..i + 1][..i] == ps[..i];
  }

  /** Two readers that agree on every element give the same items. */
  lemma {:induction false} ConcatSame<P, T>(f: P -> seq<T>, g: P -> seq<T>, ps: seq<P>)
    requires forall i :: 0 <= i < |ps| ==> f(ps[i]) == g(ps[i])
    ensures Concat(f, ps) == Concat(g, ps)
    decreases |ps|
  {
    if ps != [] {
      ConcatSame(f, g, ps[..|ps| - 1]);
    }
  }

  /** What holds of every item of every `f(p)` holds of every item of `Concat`. */
  lemma {:induction false} ConcatEach<P, T>(f: P -> seq<T>, ps: seq<P>, q: T -> bool)
    requires forall i, k :: 0 <= i < |ps| && 0 <= k < |f(ps[i])| ==> q(f(ps[i])[k])
    ensures forall k :: 0 <= k < |Concat(f, ps)| ==> q(Concat(f, ps)[k])
    decreases |ps|
  {
    if ps != [] {
      var init := ps[..|ps| - 1];
      assert forall i :: 0 <= i < |init| ==> init[i] == ps[i];
      ConcatEach(f, init, q);
      var a := Concat(f, init);
      var b := f(ps[|ps| - 1]);
      forall k | 0 <= k < |a + b| ensures q((a + b)[k]) {
        if k >= |a| {
          assert (a + b)[k] == f(ps[|ps| - 1])[k - |a|];
        }
      }
    }
  }

  /** Every item `f` gives for an element shows up in `Concat`. */
  lemma {:induction false} ConcatHas<P, T>(f: P -> seq<T>, ps: seq<P>, i: nat, x: T)
    requires i < |ps| && x in f(ps[i])
    ensures x in Concat(f, ps)
    decreases |ps|
  {
    if i < |ps| - 1 {
      ConcatHas(f, ps[..|ps| - 1], i, x);
    }
  }

  predicate DistinctKeys<T, K(==)>(key: T -> K, xs: seq<T>) {
    forall i, j :: 0 <= i < j < |xs| ==> key(xs[i]) != key(xs[j])
  }

  function Tags<P, O>(tag: P -> O, ps: seq<P>): set<O> {
    set i | 0 <= i < |ps| :: tag(ps[i])
  }

  /**
   * Items of different elements have different keys when each key names the
   * element it came from and no two elements share a name; so the keys of
   * `Concat` are distinct when those of each `f(p)` are.
   */
  lemma {:induction false} ConcatDistinct<P, T, K, O>(f: P -> seq<T>, key: T -> K, owner: K -> O, tag: P -> O, ps: seq<P>)
    requires forall i, j :: 0 <= i < j < |ps| ==> tag(ps[i]) != tag(ps[j])
    requires forall i, k :: 0 <= i < |ps| && 0 <= k < |f(ps[i])| ==> owner(key(f(ps[i])[k])) == tag(ps[i])
    requires forall i :: 0 <= i < |ps| ==> DistinctKeys(key, f(ps[i]))
    ensures DistinctKeys(key, Concat(f, ps))
    ensures forall k :: 0 <= k < |Concat(f, ps)| ==> owner(key(Concat(f, ps)[k])) in Tags(tag, ps)
    decreases |ps|
  {
    if ps != [] {
      var n := |ps| - 1;
      var init := ps[..n];
      assert forall i :: 0 <= i < |init| ==> init[i] == ps[i];
      ConcatDistinct(f, key, owner, tag, init);
      var a := Concat(f, init);
      var b := f(ps[n]);
      assert Tags(tag, init) <= Tags(tag, ps);
      if tag(ps[n]) in Tags(tag, init) {
        assert false;
      }
      forall i, j | 0 <= i < j < |a + b| ensures key((a + b)[i]) != key((a + b)[j]) {
        if j >= |a| {
          assert (a + b)[j] == b[j - |a|];
          assert owner(key(b[j - |a|])) == tag(ps[n]);
          if i >= |a| {
            assert (a + b)[i] == b[i - |a|];
          } else {
            assert owner(key(a[i])) in Tags(tag, init);
          }
        }
      }
      forall k | 0 <= k < |a + b| ensures owner(key((a + b)[k])) in Tags(tag, ps) {
        if k >= |a| {
          assert (a + b)[k] == b[k - |a|];
          assert owner(key(b[k - |a|])) == tag(ps[n]);
        }
      }
    }
  }

  // ---------------------------------------------------------------------------
  // a Python dict: keys kept in the order they were first set
  // ---------------------------------------------------------------------------

  /** `d[k] = v`: a new key goes last, a key already there keeps its place. */
  function Assign<K(==), V>(d: seq<(K, V)>, k: K, v: V): (r: seq<(K, V)>)
    ensures |r| == |d| || |r| == |d| + 1
  {
    if d == [] then [(k, v)]
    else if d[0].0 == k then [(k, v)] + d[1..]
    else [d[0]] + Assign(d[1..], k, v)
  }

  /** `d.get(k)`. */
  function Lookup<K(==), V>(d: seq<(K, V)>, k: K): Option<V> {
    if d == [] then None
    else if d[0].0 == k then Some(d[0].1)
    else Lookup(d[1..], k)
  }

  /** `list(d.values())`. */
  function Values<K, V>(d: seq<(K, V)>): (vs: seq<V>)
    ensures |vs| == |d| && forall i :: 0 <= i < |d| ==> vs[i] == d[i].1
  {
    seq(|d|, i requires 0 <= i < |d| => d[i].1)
  }

  /** `d[key(v)] = v` for each of `vs` in turn. */
  function AssignAll<K(==), V>(d: seq<(K, V)>, key: V -> K, vs: seq<V>): seq<(K, V)>
    decreases |vs|
  {
    if vs == [] then d else Assign(AssignAll(d, key, vs[..|vs| - 1]), key(vs[|vs| - 1]), vs[|vs| - 1])
  }

  /** A dict filled from `{}`. */
  function Cache<K(==), V>(key: V -> K, vs: seq<V>): seq<(K, V)> {
    AssignAll([], key, vs)
  }

  lemma AssignAllStep<K, V>(d: seq<(K, V)>, key: V -> K, vs: seq<V>, j: nat)
    requires j < |vs|
    ensures AssignAll(d, key, vs[..j + 1]) == Assign(AssignAll(d, key, vs[..j]), key(vs[j]), vs[j])
  {
    assert vs[..j + 1][..j] == vs[..j];
  }

  /** Setting the keys of `vs + ws` is setting those of `vs`, then those of `ws`. */
  lemma {:induction false} AssignAllAppend<K, V>(d: seq<(K, V)>, key: V -> K, vs: seq<V>, ws: seq<V>)
    ensures AssignAll(d, key, vs + ws) == AssignAll(AssignAll(d, key, vs), key, ws)
    decreases |ws|
  {
    if ws == [] {
      assert vs + ws == vs;
    } else {
      var n := |ws| - 1;
      assert (vs + ws)[..|vs + ws| - 1] == vs + ws[..n];
      AssignAllAppend(d, key, vs, ws[..n]);
    }
  }

  /** After `d[k] = v`, `k` holds `v` and every other key what it held. */
  lemma {:induction false} AssignLookup<K, V>(d: seq<(K, V)>, k: K, v: V, q: K)
    ensures Lookup(Assign(d, k, v), q) == if q == k then Some(v) else Lookup(d, q)
  {
    if d != [] && d[0].0 != k {
      AssignLookup(d[1..], k, v, q);
    }
  }

  /** Setting a key that is not there yet appends it. */
  lemma {:induction false} AssignFresh<K, V>(d: seq<(K, V)>, k: K, v: V)
    requires forall i :: 0 <= i < |d| ==> d[i].0 != k
    ensures Assign(d, k, v) == d + [(k, v)]
  {
    if d != [] {
      AssignFresh(d[1..], k, v);
    }
  }

  /** The value a key ends up with is the last one set for it. */
  lemma {:induction false} CacheLastWins<K, V>(key: V -> K, vs: seq<V>, j: nat)
    requires j < |vs|
    requires forall i :: j < i < |vs| ==> key(vs[i]) != key(vs[j])
    ensures Lookup(Cache(key, vs), key(vs[j])) == Some(vs[j])
    decreases |vs|
  {
    var n := |vs| - 1;
    AssignLookup(AssignAll([], key, vs[..n]), key(vs[n]), vs[n], key(vs[j]));
    if j < n {
      CacheLastWins(key, vs[..n], j);
    }
  }

  /** With no key set twice, the values come out as they went in. */
  lemma CacheFresh<K, V>(key: V -> K, vs: seq<V>)
    requires DistinctKeys(key, vs)
    ensures |Cache(key, vs)| == |vs|
    ensures forall i :: 0 <= i < |vs| ==> Cache(key, vs)[i] == (key(vs[i]), vs[i])
    ensures Values(Cache(key, vs)) == vs
  {
    CacheEntries(key, vs);
  }

  lemma {:induction false} CacheEntries<K, V>(key: V -> K, vs: seq<V>)
    requires DistinctKeys(key, vs)
    ensures |Cache(key, vs)| == |vs|
    ensures forall i :: 0 <= i < |vs| ==> Cache(key, vs)[i] == (key(vs[i]), vs[i])
    decreases |vs|
  {
    if vs != [] {
      var n := |vs| - 1;
      var d := AssignAll([], key, vs[..n]);
      assert DistinctKeys(key, vs[..n]);
      CacheEntries(key, vs[..n]);
      assert forall i :: 0 <= i < |d| ==> d[i].0 != key(vs[n]) by {
        forall i | 0 <= i < |d| ensures d[i].0 != key(vs[n]) {
          assert d[i] == (key(vs[i]), vs[i]);
        }
      }
      AssignFresh(d, key(vs[n]), vs[n]);
    }
  }

  // ---------------------------------------------------------------------------
  // the source cache
  // ---------------------------------------------------------------------------

  /** The key `load_source_data` files a record under. */
  datatype SourceKey = SourceKey(
    ikona: string, rozmiar: string, proces: string, file: Path, lineNo: nat, agentFolder: string)

  function SourceKeyOf(r: ObjectRecord): SourceKey {
    SourceKey(r.ikona, r.rozmiar, r.proces, r.file, r.lineNo, r.agentFolder)
  }

  /**
   * The records of one entry of `obiekty/`: those of its `mapa_dane.txt`
   * when it is a folder and the file reads and parses; a file that cannot be
   * read or raises while parsing gives none.
   */
  function AgentRecords(t: Tree, a: Path): (rs: seq<ObjectRecord>)
    ensures forall k :: 0 <= k < |rs| ==>
              rs[k].file == a + [DataName] && rs[k].agentFolder == Name(a) && Normalised(rs[k])
  {
    if !IsDir(t, a) then []
    else
      var f := a + [DataName];
      match ReadText(t, f)
      case None => []
      case Some(text) =>
        match ParseSourceFile(f, SplitLines(text), Name(a))
        case BadNumber(_) => []
        case Ok(rs) =>
          ParseSourceFileNormalised(f, SplitLines(text), Name(a));
          rs
  }

  function AgentReader(t: Tree): Path -> seq<ObjectRecord> {
    a => AgentRecords(t, a)
  }

  /**
   * `load_source_data()`: the records of every agent folder in the order
   * `iterdir()` lists them; None when `obiekty` is a file (`iterdir()`
   * raises out of the function).
   */
  function SourceData(t: Tree): Option<seq<ObjectRecord>> {
    if !Exists(t, Matching.ObjectsDir) then Some([])
    else if !IsDir(t, Matching.ObjectsDir) then None
    else Some(Concat(AgentReader(t), Children(t, Matching.ObjectsDir)))
  }

  /** The records of one entry come in strictly increasing line order. */
  lemma AgentRecordLines(t: Tree, a: Path)
    ensures var rs := AgentRecords(t, a);
            forall i, j :: 0 <= i < j < |rs| ==> rs[i].lineNo < rs[j].lineNo
  {
    var f := a + [DataName];
    if IsDir(t, a) && ReadText(t, f).Some? {
      FileRecordLines(f, SplitLines(ReadText(t, f).value), Name(a));
    }
  }

  /** The records `parse_source_file` returns come in strictly increasing line order. */
  lemma FileRecordLines(f: Path, lines: seq<string>, agent: string)
    ensures ParseSourceFile(f, lines, agent).Ok? ==>
              var rs := ParseSourceFile(f, lines, agent).value;
              forall i, j :: 0 <= i < j < |rs| ==> rs[i].lineNo < rs[j].lineNo
  {
    if ParseSourceFile(f, lines, agent).Ok? && (IsObraz(f) || !IsMultiLine(lines)) {
      RecordLinesShape(f, lines, agent, IsObraz(f));
      NonBlankFromIncreasing(lines, 0);
    }
  }

  lemma {:induction false} NonBlankFromIncreasing(lines: seq<string>, i: nat)
    requires i <= |lines|
    ensures forall a, b :: 0 <= a < b < |NonBlankFrom(lines, i)| ==> NonBlankFrom(lines, i)[a] < NonBlankFrom(lines, i)[b]
    decreases |lines| - i
  {
    if i < |lines| {
      NonBlankFromIncreasing(lines, i + 1);
      var rest := NonBlankFrom(lines, i + 1);
      if Strip(lines[i]) != [] {
        var r := NonBlankFrom(lines, i);
        assert r == [i] + rest;
        forall a, b | 0 <= a < b < |r| ensures r[a] < r[b] {
          assert r[b] == rest[b - 1];
          if a > 0 {
            assert r[a] == rest[a - 1];
          }
        }
      }
    }
  }

  /** The directory a record's file lies in. */
  function FileDir(k: SourceKey): Path {
    if k.file == [] then [] else k.file[..|k.file| - 1]
  }

  function Itself(p: Path): Path {
    p
  }

  /**
   * No two loaded records share a key (each file lies in its own agent
   * folder and numbers its records apart), so the cache holds every loaded
   * record, in the order they were loaded.
   */
  lemma SourceCacheValues(t: Tree)
    requires Distinct(t) && SourceData(t).Some?
    ensures Values(Cache(SourceKeyOf, SourceData(t).value)) == SourceData(t).value
  {
    if IsDir(t, Matching.ObjectsDir) {
      var agents := Children(t, Matching.ObjectsDir);
      ChildrenUnique(t, Matching.ObjectsDir);
      forall i, k | 0 <= i < |agents| && 0 <= k < |AgentReader(t)(agents[i])|
        ensures FileDir(SourceKeyOf(AgentReader(t)(agents[i])[k])) == Itself(agents[i])
      {
        assert AgentReader(t)(agents[i])[k].file == agents[i] + [DataName];
        assert (agents[i] + [DataName])[..|agents[i]|] == agents[i];
      }
      forall i | 0 <= i < |agents| ensures DistinctKeys(SourceKeyOf, AgentReader(t)(agents[i])) {
        AgentRecordLines(t, agents[i]);
      }
      ConcatDistinct(AgentReader(t), SourceKeyOf, FileDir, Itself, agents);
    }
    CacheFresh(SourceKeyOf, SourceData(t).value);
  }

  // ---------------------------------------------------------------------------
  // the connection cache
  // ---------------------------------------------------------------------------

  /** The key `load_line_source_data` files a connection under. */
  datatype LineKey = LineKey(
    x1: real, y1: real, x2: real, y2: real, proces: string, lineFolder: string, fileName: string)

  function LineKeyOf(l: LineRecord): LineKey {
    LineKey(l.x1, l.y1, l.x2, l.y2, l.proces, l.lineFolder, Name(l.file))
  }

  /** A file whose lowercased name starts with `linia_dane`. */
  predicate IsCfg(t: Tree, p: Path) {
    IsFile(t, p) && StartsWith(Lower(Name(p)), CfgPrefix)
  }

  function Cfgs(t: Tree, ps: seq<Path>): (r: seq<Path>)
    ensures forall k :: 0 <= k < |r| ==> IsCfg(t, r[k]) && r[k] in ps
    ensures Unique(ps) ==> Unique(r)
  {
    if ps == [] then []
    else if IsCfg(t, ps[0]) then
      assert Unique(ps) ==> ps[0] !in ps[1..];
      [ps[0]] + Cfgs(t, ps[1..])
    else Cfgs(t, ps[1..])
  }

  lemma CfgIn(t: Tree, ps: seq<Path>, p: Path)
    requires p in Cfgs(t, ps)
    ensures p in ps
  {
    var k :| 0 <= k < |Cfgs(t, ps)| && Cfgs(t, ps)[k] == p;
  }

  /** `key=lambda p: p.name.lower()`. */
  function NameOrder(): (Path, Path) -> bool {
    (p: Path, q: Path) => StrLe(Lower(Name(p)), Lower(Name(q)))
  }

  /** The configuration files of one folder of `linie/`, sorted by lowercased name. */
  function LineFiles(t: Tree, d: Path): seq<Path> {
    Sort(Cfgs(t, Children(t, d)), NameOrder())
  }

  /** The connection one configuration file gives, if it reads and parses. */
  function CfgRecords(t: Tree, folder: string, cfg: Path): (ls: seq<LineRecord>)
    ensures |ls| <= 1
    ensures forall k :: 0 <= k < |ls| ==> ls[k].file == cfg && ls[k].lineFolder == folder
  {
    match ReadText(t, cfg)
    case None => []
    case Some(text) =>
      match ParseLineSourceFile(cfg, SplitLines(text), folder)
      case BadNumber(_) => []
      case Ok(ls) => ls
  }

  function CfgReader(t: Tree, folder: string): Path -> seq<LineRecord> {
    cfg => CfgRecords(t, folder, cfg)
  }

  /** The connections of one entry of `linie/` (none unless it is a folder). */
  function DirLineRecords(t: Tree, d: Path): seq<LineRecord> {
    if IsDir(t, d) then Concat(CfgReader(t, Name(d)), LineFiles(t, d)) else []
  }

  function DirReader(t: Tree): Path -> seq<LineRecord> {
    d => DirLineRecords(t, d)
  }

  /**
   * `load_line_source_data()`: the connections of every folder of `linie/`;
   * None when `linie` is a file.
   */
  function LineSourceData(t: Tree): Option<seq<LineRecord>> {
    if !Exists(t, LinesDir) then Some([])
    else if !IsDir(t, LinesDir) then None
    else Some(Concat(DirReader(t), Children(t, LinesDir)))
  }

  function LineFolderOf(k: LineKey): string {
    k.lineFolder
  }

  function FileNameOf(k: LineKey): string {
    k.fileName
  }

  /** Within one folder, connections come from files of distinct names. */
  lemma DirLineKeys(t: Tree, d: Path)
    requires Distinct(t)
    ensures DistinctKeys(LineKeyOf, DirLineRecords(t, d))
    ensures forall k :: 0 <= k < |DirLineRecords(t, d)| ==> DirLineRecords(t, d)[k].lineFolder == Name(d)
  {
    if IsDir(t, d) {
      var fs := LineFiles(t, d);
      var cs := Children(t, d);
      ChildrenUnique(t, d);
      SortUnique(Cfgs(t, cs), NameOrder());
      forall i, j | 0 <= i < j < |fs| ensures Name(fs[i]) != Name(fs[j]) {
        if Name(fs[i]) == Name(fs[j]) {
          assert fs[i] in fs && fs[j] in fs;
          CfgIn(t, cs, fs[i]);
          CfgIn(t, cs, fs[j]);
          ChildName(fs[i], fs[j], d);
        }
      }
      ConcatDistinct(CfgReader(t, Name(d)), LineKeyOf, FileNameOf, Name, fs);
      ConcatEach(CfgReader(t, Name(d)), fs, (l: LineRecord) => l.lineFolder == Name(d));
    }
  }

  /**
   * No two loaded connections share a key (folders and files have distinct
   * names), so the cache holds every loaded connection, in load order.
   */
  lemma LineCacheValues(t: Tree)
    requires Distinct(t) && LineSourceData(t).Some?
    ensures Values(Cache(LineKeyOf, LineSourceData(t).value)) == LineSourceData(t).value
  {
    if IsDir(t, LinesDir) {
      var ds := Children(t, LinesDir);
      ChildrenUnique(t, LinesDir);
      forall i | 0 <= i < |ds| ensures DistinctKeys(LineKeyOf, DirReader(t)(ds[i]))
        && forall k :: 0 <= k < |DirReader(t)(ds[i])| ==> LineFolderOf(LineKeyOf(DirReader(t)(ds[i])[k])) == Name(ds[i])
      {
        DirLineKeys(t, ds[i]);
      }
      ConcatDistinct(DirReader(t), LineKeyOf, LineFolderOf, Name, ds);
    }
    CacheFresh(LineKeyOf, LineSourceData(t).value);
  }

  // ---------------------------------------------------------------------------
  // writing the summaries
  // ---------------------------------------------------------------------------

  /**
   * `open(path, "w")` and write `text`: the file holds `text` afterwards,
   * except when `path` is a folder (the error is logged and nothing changes).
   */
  function WriteSnapshot(t: Tree, p: Path, text: string, now: int): (r: Tree)
    ensures !IsDir(t, p) ==> ReadText(r, p) == Some(text)
  {
    if IsDir(t, p) then t
    else
      PutRead(t, p, File(text, now), p);
      Put(t, p, File(text, now))
  }

  /**
   * The I/O of `_prime_sources_and_obraz` and `_maybe_regenerate_obraz`: load
   * the records, write `obraz.txt`, load the connections, write
   * `polaczenie.txt`. The folders afterwards, and whether it got to the end
   * (a load that raises stops it, after whatever was written before).
   */
  function Rebuilt(t: Tree, now: int): (Tree, bool) {
    match SourceData(t)
    case None => (t, false)
    case Some(rs) =>
      var t1 := WriteSnapshot(t, ObrazPath, ObrazText(rs), now);
      match LineSourceData(t1)
      case None => (t1, false)
      case Some(ls) => (WriteSnapshot(t1, PolaczeniePath, PolaczenieText(ls), now), true)
  }

  /**
   * The two caches after a rebuild, given the connection cache before it:
   * `load_source_data` empties the record cache and refills it; when that
   * raises the connection cache is never reached, otherwise
   * `load_line_source_data` empties it and refills it in turn.
   */
  function RebuiltCaches(t: Tree, lines: seq<(LineKey, LineRecord)>): (seq<(SourceKey, ObjectRecord)>, seq<(LineKey, LineRecord)>) {
    match SourceData(t)
    case None => ([], lines)
    case Some(rs) =>
      (Cache(SourceKeyOf, rs), match LineSourceData(t) case None => [] case Some(ls) => Cache(LineKeyOf, ls))
  }

  /** After a rebuild the caches list exactly the records and connections loaded, in load order. */
  lemma RebuiltCachesValues(t: Tree, lines: seq<(LineKey, LineRecord)>)
    requires Distinct(t)
    ensures SourceData(t).Some? ==> Values(RebuiltCaches(t, lines).0) == SourceData(t).value
    ensures SourceData(t).Some? && LineSourceData(t).Some? ==> Values(RebuiltCaches(t, lines).1) == LineSourceData(t).value
    ensures SourceData(t).Some? && LineSourceData(t).None? ==> RebuiltCaches(t, lines).1 == []
    ensures SourceData(t).None? ==> RebuiltCaches(t, lines).0 == [] && RebuiltCaches(t, lines).1 == lines
  {
    if SourceData(t).Some? {
      SourceCacheValues(t);
      if LineSourceData(t).Some? {
        LineCacheValues(t);
      }
    }
  }

  lemma ObrazPathIsObraz()
    ensures IsObraz(ObrazPath)
  {
    assert Name(ObrazPath) == "obraz.txt";
    LowerOfLower("obraz.txt");
  }

  /** The rebuild gets to the end exactly when both folders load. */
  lemma RebuiltOk(t: Tree, now: int)
    ensures Rebuilt(t, now).1 <==> SourceData(t).Some? && LineSourceData(t).Some?
  {
    if SourceData(t).Some? && !IsDir(t, ObrazPath) {
      LineSourceDataAfterWrite(t, ObrazPath, File(ObrazText(SourceData(t).value), now));
    }
  }

  /**
   * Writing `obraz.txt` does not touch `linie/`: after a full rebuild both
   * summaries hold what was loaded from the folders as they were before.
   */
  lemma RebuiltSummaries(t: Tree, now: int)
    requires Rebuilt(t, now).1
    requires !IsDir(t, ObrazPath) && !IsDir(t, PolaczeniePath)
    ensures SourceData(t).Some? && LineSourceData(t).Some?
    ensures ReadText(Rebuilt(t, now).0, ObrazPath) == Some(ObrazText(SourceData(t).value))
    ensures ReadText(Rebuilt(t, now).0, PolaczeniePath) == Some(PolaczenieText(LineSourceData(t).value))
  {
    var rs := SourceData(t).value;
    var node := File(ObrazText(rs), now);
    var t1 := WriteSnapshot(t, ObrazPath, ObrazText(rs), now);
    assert t1 == Put(t, ObrazPath, node);
    LineSourceDataAfterWrite(t, ObrazPath, node);
    PutElsewhere(t, ObrazPath, node, PolaczeniePath);
    var ls := LineSourceData(t1).value;
    PutElsewhere(t1, PolaczeniePath, File(PolaczenieText(ls), now), ObrazPath);
  }

  /** A write at the top of the base folder, other than `linie` itself, leaves the connections as they were. */
  lemma LineSourceDataAfterWrite(t: Tree, p: Path, node: Node)
    requires |p| == 1 && p != LinesDir
    ensures LineSourceData(Put(t, p, node)) == LineSourceData(t)
  {
    var u := Put(t, p, node);
    PutElsewhere(t, p, node, LinesDir);
    PutChildren(t, p, node, LinesDir);
    var ds := Children(t, LinesDir);
    forall i | 0 <= i < |ds| ensures DirReader(u)(ds[i]) == DirReader(t)(ds[i]) {
      DirLineRecordsAfterWrite(t, p, node, ds[i]);
    }
    ConcatSame(DirReader(u), DirReader(t), ds);
  }

  lemma DirLineRecordsAfterWrite(t: Tree, p: Path, node: Node, d: Path)
    requires |p| == 1 && |d| == 2
    ensures DirLineRecords(Put(t, p, node), d) == DirLineRecords(t, d)
  {
    PutElsewhere(t, p, node, d);
    LineFilesAfterWrite(t, p, node, d);
    CfgReadersAfterWrite(t, p, node, d);
  }

  lemma LineFilesAfterWrite(t: Tree, p: Path, node: Node, d: Path)
    requires |p| == 1 && |d| == 2
    ensures LineFiles(Put(t, p, node), d) == LineFiles(t, d)
  {
    var u := Put(t, p, node);
    PutChildren(t, p, node, d);
    var cs := Children(t, d);
    forall i | 0 <= i < |cs| ensures IsCfg(u, cs[i]) == IsCfg(t, cs[i]) {
      PutElsewhere(t, p, node, cs[i]);
    }
    CfgsSame(t, u, cs);
  }

  lemma CfgReadersAfterWrite(t: Tree, p: Path, node: Node, d: Path)
    requires |p| == 1 && |d| == 2
    ensures Concat(CfgReader(Put(t, p, node), Name(d)), LineFiles(t, d)) == Concat(CfgReader(t, Name(d)), LineFiles(t, d))
  {
    var u := Put(t, p, node);
    var cs := Children(t, d);
    var fs := LineFiles(t, d);
    forall i | 0 <= i < |fs| ensures CfgReader(u, Name(d))(fs[i]) == CfgReader(t, Name(d))(fs[i]) {
      assert fs[i] in multiset(fs);
      CfgIn(t, cs, fs[i]);
      CfgRecordsAfterWrite(t, p, node, Name(d), fs[i]);
    }
    ConcatSame(CfgReader(u, Name(d)), CfgReader(t, Name(d)), fs);
  }

  lemma CfgRecordsAfterWrite(t: Tree, p: Path, node: Node, folder: string, cfg: Path)
    requires cfg != p
    ensures CfgRecords(Put(t, p, node), folder, cfg) == CfgRecords(t, folder, cfg)
  {
    PutElsewhere(t, p, node, cfg);
  }

  lemma {:induction false} CfgsSame(t: Tree, u: Tree, ps: seq<Path>)
    requires forall i :: 0 <= i < |ps| ==> IsCfg(u, ps[i]) == IsCfg(t, ps[i])
    ensures Cfgs(u, ps) == Cfgs(t, ps)
  {
    if ps != [] {
      CfgsSame(t, u, ps[1..]);
    }
  }

  /** `load_line_display_data()`: the connections `polaczenie.txt` shows. */
  function LineDisplayData(t: Tree): seq<Connection> {
    match ReadText(t, PolaczeniePath)
    case None => []
    case Some(text) => ConnectionLines(SplitLines(text))
  }

  /** `write_obraz(records)`. */
  method WriteObraz(disk: Disk, rs: seq<ObjectRecord>, now: int)
    requires disk.Valid()
    modifies disk
    ensures disk.Valid()
    ensures disk.tree == WriteSnapshot(old(disk.tree), ObrazPath, ObrazText(rs), now)
  {
    if !IsDir(disk.tree, ObrazPath) {
      disk.WriteText(ObrazPath, ObrazText(rs), now);
    }
  }

  /** `write_polaczenie(connections)`. */
  method WritePolaczenie(disk: Disk, ls: seq<LineRecord>, now: int)
    requires disk.Valid()
    modifies disk
    ensures disk.Valid()
    ensures disk.tree == WriteSnapshot(old(disk.tree), PolaczeniePath, PolaczenieText(ls), now)
  {
    if !IsDir(disk.tree, PolaczeniePath) {
      disk.WriteText(PolaczeniePath, PolaczenieText(ls), now);
    }
  }

  // ---------------------------------------------------------------------------
  // the two global caches
  // ---------------------------------------------------------------------------

  /** `SOURCE_CACHE` and `LINE_SOURCE_CACHE`. */
  class Caches {
    var sourceCache: seq<(SourceKey, ObjectRecord)>
    var lineCache: seq<(LineKey, LineRecord)>

    constructor()
      ensures sourceCache == [] && lineCache == []
    {
      sourceCache := [];
      lineCache := [];
    }

    /** `load_source_data()`: the cache is emptied and refilled with what is returned. */
    method LoadSourceData(t: Tree) returns (r: Option<seq<ObjectRecord>>)
      modifies this
      ensures r == SourceData(t)
      ensures sourceCache == if r.Some? then Cache(SourceKeyOf, r.value) else []
      ensures lineCache == old(lineCache)
    {
      sourceCache := [];
      if !Exists(t, Matching.ObjectsDir) {
        return Some([]);
      }
      if !IsDir(t, Matching.ObjectsDir) {
        return None;
      }
      var agents := Children(t, Matching.ObjectsDir);
      var out: seq<ObjectRecord> := [];
      for i := 0 to |agents|
        invariant out == Concat(AgentReader(t), agents[..i])
        invariant sourceCache == Cache(SourceKeyOf, out)
        invariant lineCache == old(lineCache)
      {
        var items := AgentRecords(t, agents[i]);
        AssignAllAppend([], SourceKeyOf, out, items);
        AddSources(items);
        out := out + items;
        ConcatStep(AgentReader(t), agents, i);
      }
      assert agents[..|agents|] == agents;
      return Some(out);
    }

    /** The inner loop of `load_source_data`: each record filed under its key. */
    method AddSources(items: seq<ObjectRecord>)
      modifies this
      ensures sourceCache == AssignAll(old(sourceCache), SourceKeyOf, items)
      ensures lineCache == old(lineCache)
    {
      for j := 0 to |items|
        invariant sourceCache == AssignAll(old(sourceCache), SourceKeyOf, items[..j])
        invariant lineCache == old(lineCache)
      {
        AssignAllStep(old(sourceCache), SourceKeyOf, items, j);
        sourceCache := Assign(sourceCache, SourceKeyOf(items[j]), items[j]);
      }
      assert items[..|items|] == items;
    }

    /** `load_line_source_data()`: the cache is emptied and refilled with what is returned. */
    method LoadLineSourceData(t: Tree) returns (r: Option<seq<LineRecord>>)
      modifies this
      ensures r == LineSourceData(t)
      ensures lineCache == if r.Some? then Cache(LineKeyOf, r.value) else []
      ensures sourceCache == old(sourceCache)
    {
      lineCache := [];
      if !Exists(t, LinesDir) {
        return Some([]);
      }
      if !IsDir(t, LinesDir) {
        return None;
      }
      var dirs := Children(t, LinesDir);
      var out: seq<LineRecord> := [];
      for i := 0 to |dirs|
        invariant out == Concat(DirReader(t), dirs[..i])
        invariant lineCache == Cache(LineKeyOf, out)
        invariant sourceCache == old(sourceCache)
      {
        ConcatStep(DirReader(t), dirs, i);
        var items := LoadLineDir(t, dirs[i]);
        AssignAllAppend([], LineKeyOf, out, items);
        out := out + items;
      }
      assert dirs[..|dirs|] == dirs;
      return Some(out);
    }

    /**
     * One entry of `linie/`: skipped unless it is a folder; otherwise its
     * configuration files in name order, the connection of each filed under
     * its key.
     */
    method LoadLineDir(t: Tree, d: Path) returns (items: seq<LineRecord>)
      modifies this
      ensures items == DirLineRecords(t, d)
      ensures lineCache == AssignAll(old(lineCache), LineKeyOf, items)
      ensures sourceCache == old(sourceCache)
    {
      if !IsDir(t, d) {
        return [];
      }
      var cfgs := LineFiles(t, d);
      items := [];
      for c := 0 to |cfgs|
        invariant items == Concat(CfgReader(t, Name(d)), cfgs[..c])
        invariant lineCache == AssignAll(old(lineCache), LineKeyOf, items)
        invariant sourceCache == old(sourceCache)
      {
        var got := CfgRecords(t, Name(d), cfgs[c]);
        AssignAllAppend(old(lineCache), LineKeyOf, items, got);
        AddLines(got);
        items := items + got;
        ConcatStep(CfgReader(t, Name(d)), cfgs, c);
      }
      assert cfgs[..|cfgs|] == cfgs;
    }

    /** The innermost loop of `load_line_source_data`. */
    method AddLines(items: seq<LineRecord>)
      modifies this
      ensures lineCache == AssignAll(old(lineCache), LineKeyOf, items)
      ensures sourceCache == old(sourceCache)
    {
      for j := 0 to |items|
        invariant lineCache == AssignAll(old(lineCache), LineKeyOf, items[..j])
        invariant sourceCache == old(sourceCache)
      {
        AssignAllStep(old(lineCache), LineKeyOf, items, j);
        lineCache := Assign(lineCache, LineKeyOf(items[j]), items[j]);
      }
      assert items[..|items|] == items;
    }
  }
}
