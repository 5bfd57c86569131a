/**
 * The map window's refresh cycle: a signature of the source files decides
 * when `obraz.txt` and `polaczenie.txt` are rebuilt, and the modification
 * times of those two files decide when the scene is drawn again.
 */
module Window {
  import opened Wrappers
  import opened Text
  import opened Fs
  import opened Records
  import opened Snapshot
  import opened Sorting
  import opened Repository
  import Matching

  // ---------------------------------------------------------------------------
  // the sources signature
  // ---------------------------------------------------------------------------

  /** One entry of the signature: `(str(f), st_mtime, st_size)`. */
  datatype Stat = Stat(path: string, mtime: int, size: nat)

  /** The number of bytes `s` takes in UTF-8. */
  function Utf8Size(s: string): (n: nat)
    ensures |s| <= n <= 4 * |s|
  {
    if s == [] then 0
    else
      var c := s[0] as int;
      (if c < 0x80 then 1 else if c < 0x800 then 2 else if c < 0x1_0000 then 3 else 4) + Utf8Size(s[1..])
  }

  function StatOf(t: Tree, p: Path): seq<Stat> {
    if IsFile(t, p) then [Stat(PathText(p), MTime(t, p).value, Utf8Size(ReadText(t, p).value))] else []
  }

  /** An entry of `obiekty/` contributes its `mapa_dane.txt`, when it is a folder holding one. */
  function AgentStat(t: Tree, a: Path): seq<Stat> {
    if IsDir(t, a) then StatOf(t, a + [DataName]) else []
  }

  function AgentStatReader(t: Tree): Path -> seq<Stat> {
    a => AgentStat(t, a)
  }

  /** An entry of a line folder contributes itself, when it is a `linia_dane*` file. */
  function CfgStat(t: Tree, f: Path): seq<Stat> {
    if IsCfg(t, f) then StatOf(t, f) else []
  }

  function CfgStatReader(t: Tree): Path -> seq<Stat> {
    f => CfgStat(t, f)
  }

  function DirStats(t: Tree, d: Path): seq<Stat> {
    if IsDir(t, d) then Concat(CfgStatReader(t), Children(t, d)) else []
  }

  function DirStatReader(t: Tree): Path -> seq<Stat> {
    d => DirStats(t, d)
  }

  /**
   * The entries in the order the folders are walked. A `obiekty` that is not
   * a folder makes the walk raise before anything is collected; a `linie`
   * that is not a folder stops it after the objects.
   */
  function RawSignature(t: Tree): seq<Stat> {
    if Exists(t, Matching.ObjectsDir) && !IsDir(t, Matching.ObjectsDir) then []
    else
      var objs := if IsDir(t, Matching.ObjectsDir) then Concat(AgentStatReader(t), Children(t, Matching.ObjectsDir)) else [];
      objs + if IsDir(t, LinesDir) then Concat(DirStatReader(t), Children(t, LinesDir)) else []
  }

  /** Python's order on `(str, float, int)` tuples. */
  predicate StatLe(a: Stat, b: Stat) {
    StrLt(a.path, b.path) || (a.path == b.path && (a.mtime < b.mtime || (a.mtime == b.mtime && a.size <= b.size)))
  }

  function StatOrder(): (Stat, Stat) -> bool {
    (a, b) => StatLe(a, b)
  }

  /** `_sources_signature()`: the entries, sorted. */
  function Signature(t: Tree): seq<Stat> {
    Sort(RawSignature(t), StatOrder())
  }

  lemma StatOrderIsOrder()
    ensures Total(StatOrder()) && Transitive(StatOrder()) && Antisymmetric(StatOrder())
  {
    forall a: Stat, b: Stat ensures StatLe(a, b) || StatLe(b, a) {
      StrLeTotal(a.path, b.path);
    }
    forall a: Stat, b: Stat, c: Stat | StatLe(a, b) && StatLe(b, c) ensures StatLe(a, c) {
      if StrLt(a.path, b.path) && StrLt(b.path, c.path) {
        StrLeTransitive(a.path, b.path, c.path);
        if a.path == c.path {
          StrLeAntisymmetric(a.path, b.path);
        }
      }
    }
    forall a: Stat, b: Stat | StatLe(a, b) && StatLe(b, a) ensures a == b {
      if a.path != b.path {
        StrLeAntisymmetric(a.path, b.path);
      }
    }
  }

  /** The signature is sorted and holds every entry of the walk, as many times each. */
  lemma SignatureSorted(t: Tree)
    ensures Sorted(Signature(t), StatOrder())
    ensures multiset(Signature(t)) == multiset(RawSignature(t))
  {
    StatOrderIsOrder();
    SortSorted(RawSignature(t), StatOrder());
  }

  /** The order the folders list their entries in does not change the signature. */
  lemma SignatureOrderFree(t: Tree, u: Tree)
    requires multiset(RawSignature(t)) == multiset(RawSignature(u))
    ensures Signature(t) == Signature(u)
  {
    StatOrderIsOrder();
    SortOrderFree(RawSignature(t), RawSignature(u), StatOrder());
  }

  /** Every data file of an agent folder is in the signature, with its time and size. */
  lemma SignatureSeesDataFile(t: Tree, i: nat)
    requires IsDir(t, Matching.ObjectsDir) && i < |Children(t, Matching.ObjectsDir)|
    requires IsDir(t, Children(t, Matching.ObjectsDir)[i])
    requires IsFile(t, Children(t, Matching.ObjectsDir)[i] + [DataName])
    ensures var f := Children(t, Matching.ObjectsDir)[i] + [DataName];
            Stat(PathText(f), MTime(t, f).value, Utf8Size(ReadText(t, f).value)) in Signature(t)
  {
    var agents := Children(t, Matching.ObjectsDir);
    var f := agents[i] + [DataName];
    var s := Stat(PathText(f), MTime(t, f).value, Utf8Size(ReadText(t, f).value));
    assert s in AgentStatReader(t)(agents[i]);
    ConcatHas(AgentStatReader(t), agents, i, s);
    SignatureSorted(t);
    assert s in multiset(RawSignature(t));
  }

  /** Every `linia_dane*` file of a line folder is in the signature, with its time and size. */
  lemma SignatureSeesLineFile(t: Tree, i: nat, j: nat)
    requires !Exists(t, Matching.ObjectsDir) || IsDir(t, Matching.ObjectsDir)
    requires IsDir(t, LinesDir) && i < |Children(t, LinesDir)|
    requires IsDir(t, Children(t, LinesDir)[i])
    requires j < |Children(t, Children(t, LinesDir)[i])|
    requires IsCfg(t, Children(t, Children(t, LinesDir)[i])[j])
    ensures var f := Children(t, Children(t, LinesDir)[i])[j];
            Stat(PathText(f), MTime(t, f).value, Utf8Size(ReadText(t, f).value)) in Signature(t)
  {
    var ds := Children(t, LinesDir);
    var fs := Children(t, ds[i]);
    var f := fs[j];
    var s := Stat(PathText(f), MTime(t, f).value, Utf8Size(ReadText(t, f).value));
    assert s in DirStats(t, ds[i]) by {
      assert s in CfgStatReader(t)(fs[j]);
      ConcatHas(CfgStatReader(t), fs, j, s);
    }
    assert s in RawSignature(t) by {
      assert s in DirStatReader(t)(ds[i]);
      ConcatHas(DirStatReader(t), ds, i, s);
    }
    SignatureSorted(t);
    assert s in multiset(Signature(t));
  }

  /** A write at the top of the base folder, other than `obiekty` or `linie`, leaves the signature as it was. */
  lemma SignatureAfterWrite(t: Tree, p: Path, node: Node)
    requires |p| == 1 && p != Matching.ObjectsDir && p != LinesDir
    ensures Signature(Put(t, p, node)) == Signature(t)
  {
    var u := Put(t, p, node);
    PutElsewhere(t, p, node, Matching.ObjectsDir);
    PutElsewhere(t, p, node, LinesDir);
    PutChildren(t, p, node, Matching.ObjectsDir);
    PutChildren(t, p, node, LinesDir);
    var agents := Children(t, Matching.ObjectsDir);
    forall i | 0 <= i < |agents| ensures AgentStatReader(u)(agents[i]) == AgentStatReader(t)(agents[i]) {
      PutElsewhere(t, p, node, agents[i]);
      PutElsewhere(t, p, node, agents[i] + [DataName]);
    }
    ConcatSame(AgentStatReader(u), AgentStatReader(t), agents);
    var ds := Children(t, LinesDir);
    forall i | 0 <= i < |ds| ensures DirStatReader(u)(ds[i]) == DirStatReader(t)(ds[i]) {
      DirStatsAfterWrite(t, p, node, ds[i]);
    }
    ConcatSame(DirStatReader(u), DirStatReader(t), ds);
  }

  lemma DirStatsAfterWrite(t: Tree, p: Path, node: Node, d: Path)
    requires |p| == 1 && |d| == 2
    ensures DirStats(Put(t, p, node), d) == DirStats(t, d)
  {
    var u := Put(t, p, node);
    PutElsewhere(t, p, node, d);
    PutChildren(t, p, node, d);
    var fs := Children(t, d);
    forall i | 0 <= i < |fs| ensures CfgStatReader(u)(fs[i]) == CfgStatReader(t)(fs[i]) {
      PutElsewhere(t, p, node, fs[i]);
    }
    ConcatSame(CfgStatReader(u), CfgStatReader(t), fs);
  }

  /** Writing the two summaries does not change the signature they were written for. */
  lemma RebuiltSignature(t: Tree, now: int)
    ensures Signature(Rebuilt(t, now).0) == Signature(t)
  {
    if SourceData(t).Some? {
      var rs := SourceData(t).value;
      var t1 := WriteSnapshot(t, ObrazPath, ObrazText(rs), now);
      if !IsDir(t, ObrazPath) {
        SignatureAfterWrite(t, ObrazPath, File(ObrazText(rs), now));
      }
      if LineSourceData(t1).Some? && !IsDir(t1, PolaczeniePath) {
        SignatureAfterWrite(t1, PolaczeniePath, File(PolaczenieText(LineSourceData(t1).value), now));
      }
    }
  }

  /** After a full rebuild the window shows every loaded record, at its point rounded. */
  lemma RebuiltShowsAll(t: Tree, now: int, rs: seq<ObjectRecord>)
    requires SourceData(t) == Some(rs) && LineSourceData(t).Some?
    requires !IsDir(t, ObrazPath) && !IsDir(t, PolaczeniePath)
    requires forall k :: 0 <= k < |rs| ==> Snapshotable(rs[k])
    ensures Rebuilt(t, now).1
    ensures var out := Matching.DisplayData(Rebuilt(t, now).0, ObrazPath, rs);
            && |out| == |rs|
            && forall k :: 0 <= k < |rs| ==>
                 out[k].rec == Reread(rs[k], k + 1, ObrazPath).(agentFolder := out[k].source.agentFolder)
  {
    RebuiltOk(t, now);
    RebuiltSummaries(t, now);
    ObrazPathIsObraz();
    Matching.ObrazShowsAll(Rebuilt(t, now).0, ObrazPath, rs);
  }

  /** After a full rebuild the window shows every loaded connection, its ends rounded. */
  lemma RebuiltShowsConnections(t: Tree, now: int, ls: seq<LineRecord>)
    requires SourceData(t).Some? && LineSourceData(t) == Some(ls)
    requires !IsDir(t, ObrazPath) && !IsDir(t, PolaczeniePath)
    requires forall k :: 0 <= k < |ls| ==> LineSnapshotable(ls[k])
    ensures Rebuilt(t, now).1
    ensures LineDisplayData(Rebuilt(t, now).0) == ShownAll(ls)
  {
    RebuiltOk(t, now);
    RebuiltSummaries(t, now);
    PolaczenieRoundTrip(ls);
  }

  // ---------------------------------------------------------------------------
  // the window
  // ---------------------------------------------------------------------------

  class MainWindow {
    const disk: Disk
    const caches: Caches
    var lastSourcesSig: Option<seq<Stat>>
    var lastObrazMTime: Option<int>
    var lastPolaczenieMTime: Option<int>
    var dirtyDisplay: bool
    /** Set while an icon is being dragged. */
    var dragging: bool
    /** What the scene shows: the objects and the connections last drawn. */
    var objects: seq<Matching.Display>
    var connections: seq<Connection>

    ghost predicate Valid()
      reads this, disk
    {
      disk.Valid()
    }

    /** The summaries were last rebuilt for the sources as they are now. */
    predicate Settled()
      reads this, disk
    {
      lastSourcesSig == Some(Signature(disk.tree))
    }

    /** One of the summaries changed since it was last seen, or a redraw is pending. */
    predicate Stale()
      reads this, disk
    {
      dirtyDisplay || lastObrazMTime != MTime(disk.tree, ObrazPath) || lastPolaczenieMTime != MTime(disk.tree, PolaczeniePath)
    }

    /** The window starts by rebuilding the summaries and asks for a first drawing. */
    constructor(disk: Disk, caches: Caches, now: int)
      requires disk.Valid()
      modifies disk, caches
      ensures this.disk == disk && this.caches == caches && Valid()
      ensures disk.tree == Rebuilt(old(disk.tree), now).0
      ensures Rebuilt(old(disk.tree), now).1 ==> Settled()
      ensures !Rebuilt(old(disk.tree), now).1 ==> lastSourcesSig == None
      ensures lastObrazMTime == MTime(disk.tree, ObrazPath) && lastPolaczenieMTime == MTime(disk.tree, PolaczeniePath)
      ensures dirtyDisplay && !dragging && objects == [] && connections == []
      ensures (caches.sourceCache, caches.lineCache) == RebuiltCaches(old(disk.tree), old(caches.lineCache))
    {
      this.disk := disk;
      this.caches := caches;
      lastSourcesSig := None;
      lastObrazMTime := None;
      lastPolaczenieMTime := None;
      dirtyDisplay := false;
      dragging := false;
      objects := [];
      connections := [];
      new;
      Prime(now);
      lastObrazMTime := MTime(disk.tree, ObrazPath);
      lastPolaczenieMTime := MTime(disk.tree, PolaczeniePath);
      dirtyDisplay := true;
    }

    /** Load both folders and write both summaries; false when a load raised. */
    method Rebuild(now: int) returns (ok: bool)
      requires Valid()
      modifies disk, caches
      ensures Valid()
      ensures (disk.tree, ok) == Rebuilt(old(disk.tree), now)
      ensures ok ==> SourceData(old(disk.tree)).Some? && LineSourceData(old(disk.tree)).Some?
      ensures ok ==> Values(caches.sourceCache) == SourceData(old(disk.tree)).value
      ensures ok ==> Values(caches.lineCache) == LineSourceData(old(disk.tree)).value
      ensures (caches.sourceCache, caches.lineCache) == RebuiltCaches(old(disk.tree), old(caches.lineCache))
    {
      var t := disk.tree;
      RebuiltOk(t, now);
      var rs := caches.LoadSourceData(disk.tree);
      if rs.None? {
        return false;
      }
      SourceCacheValues(t);
      WriteObraz(disk, Values(caches.sourceCache), now);
      if !IsDir(t, ObrazPath) {
        LineSourceDataAfterWrite(t, ObrazPath, File(ObrazText(rs.value), now));
      }
      var ls := caches.LoadLineSourceData(disk.tree);
      if ls.None? {
        return false;
      }
      LineCacheValues(disk.tree);
      WritePolaczenie(disk, Values(caches.lineCache), now);
      ok := true;
    }

    /** What a successful rebuild records: the signature it was made for, the new times, a redraw. */
    method Settle(sig: seq<Stat>)
      modifies this`lastSourcesSig, this`lastObrazMTime, this`lastPolaczenieMTime, this`dirtyDisplay
      ensures lastSourcesSig == Some(sig) && dirtyDisplay
      ensures lastObrazMTime == MTime(disk.tree, ObrazPath) && lastPolaczenieMTime == MTime(disk.tree, PolaczeniePath)
    {
      lastSourcesSig := Some(sig);
      lastObrazMTime := MTime(disk.tree, ObrazPath);
      lastPolaczenieMTime := MTime(disk.tree, PolaczeniePath);
      dirtyDisplay := true;
    }

    /** `_prime_sources_and_obraz()`. */
    method Prime(now: int)
      requires Valid()
      modifies this, disk, caches
      ensures Valid()
      ensures disk.tree == Rebuilt(old(disk.tree), now).0
      ensures Rebuilt(old(disk.tree), now).1 ==>
                Settled() && dirtyDisplay
                && lastObrazMTime == MTime(disk.tree, ObrazPath)
                && lastPolaczenieMTime == MTime(disk.tree, PolaczeniePath)
      ensures !Rebuilt(old(disk.tree), now).1 ==>
                lastSourcesSig == old(lastSourcesSig) && dirtyDisplay == old(dirtyDisplay)
                && lastObrazMTime == old(lastObrazMTime) && lastPolaczenieMTime == old(lastPolaczenieMTime)
      ensures dragging == old(dragging) && objects == old(objects) && connections == old(connections)
      ensures (caches.sourceCache, caches.lineCache) == RebuiltCaches(old(disk.tree), old(caches.lineCache))
    {
      var ok := Rebuild(now);
      if ok {
        Settle(Signature(disk.tree));
      }
    }

    /**
     * `_maybe_regenerate_obraz()`: nothing happens while the sources keep
     * their signature; otherwise the summaries are rebuilt, and once that
     * succeeds the window is settled, so the next call does nothing.
     */
    method MaybeRegenerate(now: int)
      requires Valid()
      modifies this, disk, caches
      ensures Valid()
      ensures old(Settled()) ==> unchanged(this) && unchanged(disk) && unchanged(caches)
      ensures !old(Settled()) ==> disk.tree == Rebuilt(old(disk.tree), now).0
      ensures !old(Settled()) && Rebuilt(old(disk.tree), now).1 ==>
                Settled() && lastSourcesSig == Some(Signature(old(disk.tree))) && dirtyDisplay
                && lastObrazMTime == MTime(disk.tree, ObrazPath)
                && lastPolaczenieMTime == MTime(disk.tree, PolaczeniePath)
      ensures old(Settled()) || !Rebuilt(old(disk.tree), now).1 ==>
                lastSourcesSig == old(lastSourcesSig) && dirtyDisplay == old(dirtyDisplay)
                && lastObrazMTime == old(lastObrazMTime) && lastPolaczenieMTime == old(lastPolaczenieMTime)
      ensures dragging == old(dragging) && objects == old(objects) && connections == old(connections)
      ensures !old(Settled()) ==> (caches.sourceCache, caches.lineCache) == RebuiltCaches(old(disk.tree), old(caches.lineCache))
    {
      var t := disk.tree;
      var sig := Signature(disk.tree);
      if Some(sig) != lastSourcesSig {
        var ok := Rebuild(now);
        if !ok {
          return;
        }
        RebuiltSignature(t, now);
        Settle(sig);
      }
    }

    /** `_render_scene()`: draw the connections and the objects the summaries hold. */
    method RenderScene()
      modifies this`objects, this`connections
      ensures objects == Matching.DisplayData(disk.tree, ObrazPath, Values(caches.sourceCache))
      ensures connections == LineDisplayData(disk.tree)
    {
      connections := LineDisplayData(disk.tree);
      objects := Matching.LoadDisplayData(disk.tree, ObrazPath, Values(caches.sourceCache));
    }

    /**
     * `refresh()`: nothing while dragging; otherwise a changed summary or a
     * pending redraw draws the scene again, after which nothing is pending.
     */
    method Refresh()
      modifies this
      ensures old(dragging) || !old(Stale()) ==> unchanged(this)
      ensures !old(dragging) ==> !Stale()
      ensures !old(dragging) && old(Stale()) ==>
                objects == Matching.DisplayData(disk.tree, ObrazPath, Values(caches.sourceCache))
                && connections == LineDisplayData(disk.tree)
      ensures dragging == old(dragging) && lastSourcesSig == old(lastSourcesSig)
    {
      if dragging {
        return;
      }
      var mtimeObraz := MTime(disk.tree, ObrazPath);
      var mtimePol := MTime(disk.tree, PolaczeniePath);
      if mtimeObraz != lastObrazMTime || mtimePol != lastPolaczenieMTime {
        lastObrazMTime := mtimeObraz;
        lastPolaczenieMTime := mtimePol;
        dirtyDisplay := true;
      }
      if !dirtyDisplay {
        return;
      }
      RenderScene();
      dirtyDisplay := false;
    }
  }
}
