/**
 * The two summary files the map regenerates from the folders: `obraz.txt`,
 * one line per object, and `polaczenie.txt`, one line per connection. Both
 * write coordinates rounded to integers, and both are read back by the same
 * parsers that read the folders.
 */
module Snapshot {
  import opened Wrappers
  import opened Text
  import opened Numbers
  import opened Fs
  import opened Records

  /** `f"{x} {y}"` for `x, y = int(round(x)), int(round(y))`. */
  function PointText(x: real, y: real): string {
    IntToString(Round(x)) + " " + IntToString(Round(y))
  }

  /** `f"{key}={value}"`: one part of a summary line. */
  function Part(key: string, v: string): string {
    key + "=" + v
  }

  /** The four `key=value` parts of an `obraz.txt` line. */
  function ObrazParts(r: ObjectRecord): seq<string> {
    [Part("xy", PointText(r.x, r.y)), Part("ikona", r.ikona), Part("rozmiar", r.rozmiar), Part("proces", r.proces)]
  }

  /** One line of `obraz.txt`, without its `\n`. */
  function ObrazLine(r: ObjectRecord): string {
    Join(ObrazParts(r), "|")
  }

  function ObrazLines(rs: seq<ObjectRecord>): (ls: seq<string>)
    ensures |ls| == |rs| && forall k :: 0 <= k < |rs| ==> ls[k] == ObrazLine(rs[k])
  {
    if rs == [] then [] else [ObrazLine(rs[0])] + ObrazLines(rs[1..])
  }

  /** `write_obraz(source_data_list)`: the text written to `obraz.txt`. */
  function ObrazText(rs: seq<ObjectRecord>): string {
    Terminated(ObrazLines(rs))
  }

  /** The three `key=value` parts of a `polaczenie.txt` line. */
  function PolaczenieParts(l: LineRecord): seq<string> {
    [Part("xy1", PointText(l.x1, l.y1)), Part("xy2", PointText(l.x2, l.y2)), Part("proces", l.proces)]
  }

  /** One line of `polaczenie.txt`, without its `\n`. */
  function PolaczenieLine(l: LineRecord): string {
    Join(PolaczenieParts(l), "|")
  }

  function PolaczenieLines(ls: seq<LineRecord>): (r: seq<string>)
    ensures |r| == |ls| && forall k :: 0 <= k < |ls| ==> r[k] == PolaczenieLine(ls[k])
  {
    if ls == [] then [] else [PolaczenieLine(ls[0])] + PolaczenieLines(ls[1..])
  }

  /** `write_polaczenie(line_source_list)`: the text written to `polaczenie.txt`. */
  function PolaczenieText(ls: seq<LineRecord>): string {
    Terminated(PolaczenieLines(ls))
  }

  /** A value that survives a trip through a `|`-separated line. */
  predicate Field(s: string) {
    Stripped(s) && '|' !in s && NoLineBreak(s)
  }

  /** An object whose summary line reads back as it was written. */
  predicate Snapshotable(r: ObjectRecord) {
    Normalised(r) && Field(r.ikona) && Field(r.proces)
  }

  /** What the shape of an `obraz.txt` line depends on: every value a plain field. */
  predicate PlainFields(r: ObjectRecord) {
    Field(r.ikona) && Field(r.proces) && Field(r.rozmiar) && ',' !in r.rozmiar
  }

  lemma SnapshotablePlain(r: ObjectRecord)
    requires Snapshotable(r)
    ensures PlainFields(r)
  {
    SizeTextChars(r.rozmiar);
  }

  /** A connection whose summary line reads back as it was written. */
  predicate LineSnapshotable(l: LineRecord) {
    Field(l.proces) && IsLower(l.proces)
  }

  /** The record `obraz.txt` holds for `r` on line `n`: the point rounded, the rest as it was. */
  function Reread(r: ObjectRecord, n: nat, path: Path): ObjectRecord {
    ObjectRecord(Round(r.x) as real, Round(r.y) as real, r.ikona, r.rozmiar, r.proces,
                 path, n, ObrazLine(r), false, "")
  }

  function Rereads(rs: seq<ObjectRecord>, path: Path): (out: seq<ObjectRecord>)
    ensures |out| == |rs| && forall k :: 0 <= k < |rs| ==> out[k] == Reread(rs[k], k + 1, path)
  {
    seq(|rs|, k requires 0 <= k < |rs| => Reread(rs[k], k + 1, path))
  }

  // ---------------------------------------------------------------------------
  // the pieces of a summary line
  // ---------------------------------------------------------------------------

  /** A part `key=value` with a plain lowercase key reads as that key and the stripped value. */
  lemma KeyValueOf(k: string, v: string)
    requires k != [] && '=' !in k && Stripped(k) && IsLower(k)
    ensures KeyValue(Part(k, v)) == Some((k, Strip(v)))
  {
    var s := Part(k, v);
    assert s[..|k|] == k;
    IndexOfAt(s, '=', |k|);
    assert s[|k| + 1..] == v;
    StripOfStripped(k);
    LowerOfLower(k);
  }

  /** A key the summary files write: lowercase letters and digits. */
  predicate KeyChars(key: string) {
    key != [] && forall i :: 0 <= i < |key| ==> 'a' <= key[i] <= 'z' || '0' <= key[i] <= '9'
  }

  /** `key=value` with a plain value reads as exactly that key and value. */
  lemma PartKeyField(key: string, v: string)
    requires KeyChars(key) && Field(v)
    ensures KeyValue(Part(key, v)) == Some((key, v))
  {
    KeyValueOf(key, v);
    StripOfStripped(v);
  }

  /** The point text is stripped and holds no bar or line break. */
  lemma PointTextPlain(x: real, y: real)
    ensures Field(PointText(x, y))
  {
    var a := IntToString(Round(x));
    var b := IntToString(Round(y));
    IntToStringShape(Round(x));
    IntToStringShape(Round(y));
    var t := a + " " + b;
    assert t[0] == a[0] && t[|t| - 1] == b[|b| - 1];
    assert !IsSep(a[0]) && !IsSep(b[|b| - 1]);
    forall i | 0 <= i < |t| ensures t[i] != '|' && !IsLineBreak(t[i]) {
      if i < |a| {
        assert t[i] == a[i];
      } else if i > |a| {
        assert t[i] == b[i - |a| - 1];
      }
    }
  }

  /** The point text reads back as the rounded point. */
  lemma PointTextRead(x: real, y: real)
    ensures ParseXY(PointText(x, y)) == Ok((Round(x) as real, Round(y) as real))
  {
    ParseXYOfInts(Round(x), Round(y));
  }

  /** A size text is stripped and holds no comma, bar or line break. */
  lemma SizeTextChars(s: string)
    requires IsSizeText(s)
    ensures Stripped(s) && ',' !in s && '|' !in s && NoLineBreak(s)
  {
    FloatTextPlain(Canon(Clamp(ParseNumber(s).value)));
  }

  /** A part of a summary line: no bar, no line break, not blank. */
  predicate PlainPart(p: string) {
    '|' !in p && NoLineBreak(p) && Strip(p) != []
  }

  /** `key=value` with a lowercase key and a plain value is a plain part. */
  lemma PartPlain(key: string, v: string)
    requires Field(v) && KeyChars(key)
    ensures PlainPart(Part(key, v))
  {
    var p := Part(key, v);
    forall i | 0 <= i < |p| ensures p[i] != '|' && !IsLineBreak(p[i]) {
      if i > |key| {
        assert p[i] == v[i - |key| - 1];
      }
    }
    StripNonBlank(p);
  }

  lemma {:induction false} NonBlankKeeps(ps: seq<string>)
    requires forall k :: 0 <= k < |ps| ==> Strip(ps[k]) != []
    ensures NonBlank(ps) == ps
  {
    if ps != [] {
      NonBlankKeeps(ps[1..]);
    }
  }

  /** Plain parts joined with bars split back into themselves, none dropped as blank. */
  lemma PlainPartsJoin(ps: seq<string>)
    requires |ps| >= 1
    requires forall k :: 0 <= k < |ps| ==> PlainPart(ps[k])
    ensures Split(Join(ps, "|"), '|') == ps
    ensures NonBlank(ps) == ps
    ensures NoLineBreak(Join(ps, "|"))
  {
    SplitJoin(ps, '|');
    NonBlankKeeps(ps);
    NoLineBreakJoin(ps, "|");
  }

  // ---------------------------------------------------------------------------
  // obraz.txt
  // ---------------------------------------------------------------------------

  lemma ObrazPart0(r: ObjectRecord)
    ensures PlainPart(ObrazParts(r)[0])
  {
    PointTextPlain(r.x, r.y);
    PartPlain("xy", PointText(r.x, r.y));
  }

  lemma ObrazPart1(r: ObjectRecord)
    requires PlainFields(r)
    ensures PlainPart(ObrazParts(r)[1])
  {
    PartPlain("ikona", r.ikona);
  }

  lemma ObrazPart2(r: ObjectRecord)
    requires PlainFields(r)
    ensures PlainPart(ObrazParts(r)[2])
  {
    PartPlain("rozmiar", r.rozmiar);
  }

  lemma ObrazPart3(r: ObjectRecord)
    requires PlainFields(r)
    ensures PlainPart(ObrazParts(r)[3])
  {
    PartPlain("proces", r.proces);
  }

  /** The parts of an `obraz.txt` line: none holds a bar or a line break, none is blank. */
  lemma ObrazPartsPlain(r: ObjectRecord)
    requires PlainFields(r)
    ensures forall k :: 0 <= k < |ObrazParts(r)| ==> PlainPart(ObrazParts(r)[k])
  {
    var ps := ObrazParts(r);
    forall k | 0 <= k < |ps| ensures PlainPart(ps[k]) {
      if k == 0 {
        ObrazPart0(r);
      } else if k == 1 {
        ObrazPart1(r);
      } else if k == 2 {
        ObrazPart2(r);
      } else {
        ObrazPart3(r);
      }
    }
  }

  /** An `obraz.txt` line is stripped, so `strip()` leaves it as it is. */
  lemma ObrazLineStripped(r: ObjectRecord)
    requires PlainFields(r)
    ensures Strip(ObrazLine(r)) == ObrazLine(r)
  {
    var ps := ObrazParts(r);
    assert ps[0][0] == 'x';
    PartEnd("proces", r.proces);
    JoinStripped(ps, "|");
  }

  /** The parts `obraz.txt` yields for a line are the parts written. */
  lemma ObrazLineParts(r: ObjectRecord)
    requires PlainFields(r)
    ensures RecordParts(Strip(ObrazLine(r))) == ObrazParts(r)
  {
    ObrazLineStripped(r);
    ObrazPartsPlain(r);
    PlainPartsJoin(ObrazParts(r));
  }

  /** The fields an `obraz.txt` line holds: the four values written. */
  lemma ObrazLineFields(r: ObjectRecord)
    requires PlainFields(r)
    ensures var m := Fields(RecordParts(Strip(ObrazLine(r))));
            && "xy" in m && m["xy"] == PointText(r.x, r.y)
            && "ikona" in m && m["ikona"] == r.ikona
            && "rozmiar" in m && m["rozmiar"] == r.rozmiar
            && "proces" in m && m["proces"] == r.proces
  {
    ObrazLineParts(r);
    ObrazPartsFields(r);
  }

  lemma ObrazPartsFields(r: ObjectRecord)
    requires PlainFields(r)
    ensures var m := Fields(ObrazParts(r));
            && "xy" in m && m["xy"] == PointText(r.x, r.y)
            && "ikona" in m && m["ikona"] == r.ikona
            && "rozmiar" in m && m["rozmiar"] == r.rozmiar
            && "proces" in m && m["proces"] == r.proces
  {
    ObrazAssignments(r);
    ObrazDict(PointText(r.x, r.y), r.ikona, r.rozmiar, r.proces);
  }

  /** The four distinct keys of an `obraz.txt` line each keep their value. */
  lemma ObrazDict(xy: string, ikona: string, rozmiar: string, proces: string)
    ensures var m := Dict([Some(("xy", xy)), Some(("ikona", ikona)), Some(("rozmiar", rozmiar)), Some(("proces", proces))]);
            && "xy" in m && m["xy"] == xy && "ikona" in m && m["ikona"] == ikona
            && "rozmiar" in m && m["rozmiar"] == rozmiar && "proces" in m && m["proces"] == proces
  {
    var kvs := [Some(("xy", xy)), Some(("ikona", ikona)), Some(("rozmiar", rozmiar)), Some(("proces", proces))];
    DictLastWins(kvs, 0, "xy");
    DictLastWins(kvs, 1, "ikona");
    DictLastWins(kvs, 2, "rozmiar");
    DictLastWins(kvs, 3, "proces");
  }

  /** Each part of an `obraz.txt` line assigns its own key its value. */
  lemma ObrazAssignments(r: ObjectRecord)
    requires PlainFields(r)
    ensures KeyValues(ObrazParts(r)) == [Some(("xy", PointText(r.x, r.y))), Some(("ikona", r.ikona)),
                                         Some(("rozmiar", r.rozmiar)), Some(("proces", r.proces))]
  {
    var kvs := KeyValues(ObrazParts(r));
    ObrazKey0(r);
    ObrazKey1(r);
    ObrazKey2(r);
    ObrazKey3(r);
    FourItems(kvs, Some(("xy", PointText(r.x, r.y))), Some(("ikona", r.ikona)),
              Some(("rozmiar", r.rozmiar)), Some(("proces", r.proces)));
  }

  lemma FourItems<T>(s: seq<T>, a: T, b: T, c: T, d: T)
    requires |s| == 4 && s[0] == a && s[1] == b && s[2] == c && s[3] == d
    ensures s == [a, b, c, d]
  {
  }

  lemma ObrazKey0(r: ObjectRecord)
    ensures KeyValue(ObrazParts(r)[0]) == Some(("xy", PointText(r.x, r.y)))
  {
    PointTextPlain(r.x, r.y);
    PartKeyField("xy", PointText(r.x, r.y));
  }

  lemma ObrazKey1(r: ObjectRecord)
    requires PlainFields(r)
    ensures KeyValue(ObrazParts(r)[1]) == Some(("ikona", r.ikona))
  {
    PartKeyField("ikona", r.ikona);
  }

  lemma ObrazKey2(r: ObjectRecord)
    requires PlainFields(r)
    ensures KeyValue(ObrazParts(r)[2]) == Some(("rozmiar", r.rozmiar))
  {
    PartKeyField("rozmiar", r.rozmiar);
  }

  lemma ObrazKey3(r: ObjectRecord)
    requires PlainFields(r)
    ensures KeyValue(ObrazParts(r)[3]) == Some(("proces", r.proces))
  {
    PartKeyField("proces", r.proces);
  }

  /** A line of `obraz.txt` reads back as the record it was written from, its point rounded. */
  lemma ObrazLineRead(r: ObjectRecord, n: nat, path: Path)
    requires Snapshotable(r)
    ensures RecordLine(path, n, ObrazLine(r), "", true) == Ok(Reread(r, n, path))
  {
    SnapshotablePlain(r);
    var m := Fields(RecordParts(Strip(ObrazLine(r))));
    ObrazLineFields(r);
    PointTextPlain(r.x, r.y);
    StripOfStripped(PointText(r.x, r.y));
    PointTextRead(r.x, r.y);
    CommaToPointKeeps(r.rozmiar);
    assert LenientSize(m) == r.rozmiar;
    LowerOfLower(r.proces);
  }

  lemma CommaToPointKeeps(s: string)
    requires ',' !in s
    ensures CommaToPoint(s) == s
  {
  }

  lemma ObrazLinesShape(rs: seq<ObjectRecord>)
    requires forall k :: 0 <= k < |rs| ==> Snapshotable(rs[k])
    ensures forall k :: 0 <= k < |rs| ==> NoLineBreak(ObrazLines(rs)[k]) && Strip(ObrazLines(rs)[k]) != []
  {
    forall k | 0 <= k < |rs|
      ensures NoLineBreak(ObrazLines(rs)[k]) && Strip(ObrazLines(rs)[k]) != []
    {
      SnapshotablePlain(rs[k]);
      ObrazLineChars(rs[k]);
    }
  }

  /** A summary line holds no line break and is not blank. */
  lemma ObrazLineChars(r: ObjectRecord)
    requires PlainFields(r)
    ensures NoLineBreak(ObrazLine(r)) && Strip(ObrazLine(r)) != []
  {
    ObrazPartsPlain(r);
    PlainPartsJoin(ObrazParts(r));
    ObrazLineStripped(r);
  }

  /**
   * Reading `obraz.txt` back gives one record per object written, in order,
   * numbered from 1: the point rounded to integers, icon, size and state as
   * they were.
   */
  lemma ObrazRoundTrip(rs: seq<ObjectRecord>, path: Path)
    requires IsObraz(path)
    requires forall k :: 0 <= k < |rs| ==> Snapshotable(rs[k])
    ensures ParseSourceFile(path, SplitLines(ObrazText(rs)), "") == Ok(Rereads(rs, path))
  {
    var lines := ObrazLines(rs);
    ObrazLinesShape(rs);
    SplitLinesTerminated(lines);
    var f := LineReader(path, "", true);
    var xs := Rereads(rs, path);
    ObrazLinesRead(rs, path);
    CollectExact(f, lines, 0, xs);
    assert xs[0..] == xs;
  }

  lemma ObrazLinesRead(rs: seq<ObjectRecord>, path: Path)
    requires IsObraz(path)
    requires forall k :: 0 <= k < |rs| ==> Snapshotable(rs[k])
    ensures |ObrazLines(rs)| == |Rereads(rs, path)|
    ensures forall j :: 0 <= j < |rs| ==>
      LineReader(path, "", true)(j + 1, ObrazLines(rs)[j]) == Ok(Rereads(rs, path)[j])
  {
    forall j | 0 <= j < |rs|
      ensures LineReader(path, "", true)(j + 1, ObrazLines(rs)[j]) == Ok(Rereads(rs, path)[j])
    {
      ObrazLineAt(rs, path, j);
    }
  }

  lemma ObrazLineAt(rs: seq<ObjectRecord>, path: Path, j: nat)
    requires j < |rs| && Snapshotable(rs[j])
    ensures LineReader(path, "", true)(j + 1, ObrazLines(rs)[j]) == Ok(Rereads(rs, path)[j])
  {
    ObrazLineRead(rs[j], j + 1, path);
  }

  /** What `obraz.txt` reads back as writes the same `obraz.txt` again. */
  lemma ObrazFixpoint(rs: seq<ObjectRecord>, path: Path)
    ensures ObrazText(Rereads(rs, path)) == ObrazText(rs)
  {
    var xs := Rereads(rs, path);
    forall k | 0 <= k < |rs| ensures ObrazLine(xs[k]) == ObrazLine(rs[k]) {
      RoundOfInteger(Round(rs[k].x));
      RoundOfInteger(Round(rs[k].y));
    }
    assert ObrazLines(xs) == ObrazLines(rs);
  }

  /** Re-read records are again fit to be written. */
  lemma RereadSnapshotable(r: ObjectRecord, n: nat, path: Path)
    requires Snapshotable(r)
    ensures Snapshotable(Reread(r, n, path))
  {
  }

  // ---------------------------------------------------------------------------
  // polaczenie.txt
  // ---------------------------------------------------------------------------

  /** The connection `polaczenie.txt` holds for `l`: both ends rounded. */
  function Shown(l: LineRecord): Connection {
    Connection(Round(l.x1) as real, Round(l.y1) as real, Round(l.x2) as real, Round(l.y2) as real, l.proces)
  }

  function ShownAll(ls: seq<LineRecord>): (cs: seq<Connection>)
    ensures |cs| == |ls| && forall k :: 0 <= k < |ls| ==> cs[k] == Shown(ls[k])
  {
    seq(|ls|, k requires 0 <= k < |ls| => Shown(ls[k]))
  }

  /** The fields a `polaczenie.txt` line holds: the three values written. */
  lemma PolaczenieLineFields(l: LineRecord)
    requires LineSnapshotable(l)
    ensures var m := Fields(RecordParts(Strip(PolaczenieLine(l))));
            && "xy1" in m && m["xy1"] == PointText(l.x1, l.y1)
            && "xy2" in m && m["xy2"] == PointText(l.x2, l.y2)
            && "proces" in m && m["proces"] == l.proces
  {
    PolaczenieLineParts(l);
    PolaczeniePartsFields(l);
  }

  lemma PolaczeniePartsFields(l: LineRecord)
    requires LineSnapshotable(l)
    ensures var m := Fields(PolaczenieParts(l));
            && "xy1" in m && m["xy1"] == PointText(l.x1, l.y1)
            && "xy2" in m && m["xy2"] == PointText(l.x2, l.y2)
            && "proces" in m && m["proces"] == l.proces
  {
    PolaczenieAssignments(l);
    PolaczenieDict(PointText(l.x1, l.y1), PointText(l.x2, l.y2), l.proces);
  }

  /** The three distinct keys of a `polaczenie.txt` line each keep their value. */
  lemma PolaczenieDict(xy1: string, xy2: string, proces: string)
    ensures var m := Dict([Some(("xy1", xy1)), Some(("xy2", xy2)), Some(("proces", proces))]);
            && "xy1" in m && m["xy1"] == xy1 && "xy2" in m && m["xy2"] == xy2
            && "proces" in m && m["proces"] == proces
  {
    var kvs := [Some(("xy1", xy1)), Some(("xy2", xy2)), Some(("proces", proces))];
    DictLastWins(kvs, 0, "xy1");
    DictLastWins(kvs, 1, "xy2");
    DictLastWins(kvs, 2, "proces");
  }

  /** Each part of a `polaczenie.txt` line assigns its own key its value. */
  lemma PolaczenieAssignments(l: LineRecord)
    requires LineSnapshotable(l)
    ensures KeyValues(PolaczenieParts(l)) == [Some(("xy1", PointText(l.x1, l.y1))), Some(("xy2", PointText(l.x2, l.y2))),
                                              Some(("proces", l.proces))]
  {
    var kvs := KeyValues(PolaczenieParts(l));
    PolaczenieKey0(l);
    PolaczenieKey1(l);
    PolaczenieKey2(l);
    ThreeItems(kvs, Some(("xy1", PointText(l.x1, l.y1))), Some(("xy2", PointText(l.x2, l.y2))),
               Some(("proces", l.proces)));
  }

  lemma ThreeItems<T>(s: seq<T>, a: T, b: T, c: T)
    requires |s| == 3 && s[0] == a && s[1] == b && s[2] == c
    ensures s == [a, b, c]
  {
  }

  lemma PolaczenieKey0(l: LineRecord)
    ensures KeyValue(PolaczenieParts(l)[0]) == Some(("xy1", PointText(l.x1, l.y1)))
  {
    PointTextPlain(l.x1, l.y1);
    PartKeyField("xy1", PointText(l.x1, l.y1));
  }

  lemma PolaczenieKey1(l: LineRecord)
    ensures KeyValue(PolaczenieParts(l)[1]) == Some(("xy2", PointText(l.x2, l.y2)))
  {
    PointTextPlain(l.x2, l.y2);
    PartKeyField("xy2", PointText(l.x2, l.y2));
  }

  lemma PolaczenieKey2(l: LineRecord)
    requires LineSnapshotable(l)
    ensures KeyValue(PolaczenieParts(l)[2]) == Some(("proces", l.proces))
  {
    PartKeyField("proces", l.proces);
  }

  lemma PolaczenieLineStripped(l: LineRecord)
    requires LineSnapshotable(l)
    ensures Strip(PolaczenieLine(l)) == PolaczenieLine(l)
  {
    var ps := PolaczenieParts(l);
    assert ps[0][0] == 'x';
    PartEnd("proces", l.proces);
    JoinStripped(ps, "|");
  }

  /** `key=value` with a stripped value does not end in a blank. */
  lemma PartEnd(key: string, v: string)
    requires Stripped(v)
    ensures !IsSpace(Part(key, v)[|Part(key, v)| - 1])
  {
    var p := Part(key, v);
    if v == [] {
      assert p[|p| - 1] == '=';
    } else {
      assert p[|p| - 1] == v[|v| - 1];
    }
  }

  lemma PolaczenieLinePlain(l: LineRecord)
    requires LineSnapshotable(l)
    ensures forall k :: 0 <= k < |PolaczenieParts(l)| ==> PlainPart(PolaczenieParts(l)[k])
  {
    var ps := PolaczenieParts(l);
    forall k | 0 <= k < |ps| ensures PlainPart(ps[k]) {
      if k == 0 {
        PolaczeniePart0(l);
      } else if k == 1 {
        PolaczeniePart1(l);
      } else {
        PolaczeniePart2(l);
      }
    }
  }

  lemma PolaczeniePart0(l: LineRecord)
    ensures PlainPart(PolaczenieParts(l)[0])
  {
    PointTextPlain(l.x1, l.y1);
    PartPlain("xy1", PointText(l.x1, l.y1));
  }

  lemma PolaczeniePart1(l: LineRecord)
    ensures PlainPart(PolaczenieParts(l)[1])
  {
    PointTextPlain(l.x2, l.y2);
    PartPlain("xy2", PointText(l.x2, l.y2));
  }

  lemma PolaczeniePart2(l: LineRecord)
    requires LineSnapshotable(l)
    ensures PlainPart(PolaczenieParts(l)[2])
  {
    PartPlain("proces", l.proces);
  }

  lemma PolaczenieLineParts(l: LineRecord)
    requires LineSnapshotable(l)
    ensures RecordParts(Strip(PolaczenieLine(l))) == PolaczenieParts(l)
  {
    PolaczenieLineStripped(l);
    PolaczenieLinePlain(l);
    PlainPartsJoin(PolaczenieParts(l));
  }

  /** A line of `polaczenie.txt` reads back as the connection it was written from, rounded. */
  lemma PolaczenieLineRead(l: LineRecord)
    requires LineSnapshotable(l)
    ensures ConnectionLine(PolaczenieLine(l)) == Ok(Shown(l))
  {
    PolaczenieLineFields(l);
    PointTextRead(l.x1, l.y1);
    PointTextRead(l.x2, l.y2);
    LowerOfLower(l.proces);
  }

  lemma PolaczenieLineChars(l: LineRecord)
    requires LineSnapshotable(l)
    ensures NoLineBreak(PolaczenieLine(l)) && Strip(PolaczenieLine(l)) != []
  {
    PolaczenieLinePlain(l);
    PlainPartsJoin(PolaczenieParts(l));
    PolaczenieLineStripped(l);
  }

  /** Reading `polaczenie.txt` back gives every connection written, in order, rounded. */
  lemma PolaczenieRoundTrip(ls: seq<LineRecord>)
    requires forall k :: 0 <= k < |ls| ==> LineSnapshotable(ls[k])
    ensures ConnectionLines(SplitLines(PolaczenieText(ls))) == ShownAll(ls)
  {
    var lines := PolaczenieLines(ls);
    forall k | 0 <= k < |ls|
      ensures NoLineBreak(lines[k]) && Strip(lines[k]) != [] && ConnectionLine(lines[k]) == Ok(ShownAll(ls)[k])
    {
      PolaczenieLineChars(ls[k]);
      PolaczenieLineRead(ls[k]);
    }
    SplitLinesTerminated(lines);
    ReadUntilErrorExact(ConnectionLine, lines, ShownAll(ls));
  }

  // ---------------------------------------------------------------------------
  // which parsed records a summary line can carry
  // ---------------------------------------------------------------------------

  /** A text holding neither `|` nor a line break. */
  predicate Clean(s: string) {
    '|' !in s && NoLineBreak(s)
  }

  lemma CleanSlice(s: string, i: nat, j: nat)
    requires Clean(s) && i <= j <= |s|
    ensures Clean(s[i..j])
  {
    forall c | c in s[i..j] ensures c in s {
      var k :| i <= k < j && s[k] == c;
    }
  }

  lemma CleanStrip(s: string)
    requires Clean(s)
    ensures Clean(Strip(s))
  {
    StripIsSlice(s);
    var i, j :| 0 <= i <= j <= |s| && Strip(s) == s[i..j];
    CleanSlice(s, i, j);
  }

  /** Lowercasing maps neither `|` nor a line break, and keeps a stripped text stripped. */
  lemma LowerClean(s: string)
    ensures '|' in Lower(s) <==> '|' in s
    ensures NoLineBreak(s) ==> NoLineBreak(Lower(s))
    ensures Stripped(s) ==> Stripped(Lower(s))
  {
    LowerKeepsChar(s, '|');
    forall i | 0 <= i < |s| ensures Lower(s)[i] == LowerChar(s[i]) {
      LowerAt(s, i);
    }
    if Stripped(s) {
      LowerStripped(s);
    }
  }

  /** The value of a part without `|` or line breaks has none either. */
  lemma KeyValueClean(part: string)
    requires Clean(part) && KeyValue(part).Some?
    ensures Clean(KeyValue(part).value.1)
  {
    var k := IndexOf(part, '=');
    CleanSlice(part, k + 1, |part|);
    CleanStrip(part[k + 1..]);
  }

  /** Parts without `|` or line breaks give values without them. */
  lemma FieldsClean(parts: seq<string>, key: string)
    requires forall k :: 0 <= k < |parts| ==> Clean(parts[k])
    ensures Clean(Get(Fields(parts), key, ""))
  {
    if key in Fields(parts) {
      var kvs := KeyValues(parts);
      DictValueFrom(kvs, key);
      var j :| 0 <= j < |kvs| && kvs[j] == Some((key, Dict(kvs)[key]));
      KeyValueClean(parts[j]);
    }
  }

  /** The parts of a line without breaks hold neither `|` nor a line break. */
  lemma RecordPartsClean(raw: string)
    requires NoLineBreak(raw)
    ensures forall k :: 0 <= k < |RecordParts(Strip(raw))| ==> Clean(RecordParts(Strip(raw))[k])
  {
    var l := Strip(raw);
    StripIsSlice(raw);
    var i, j :| 0 <= i <= j <= |raw| && l == raw[i..j];
    assert NoLineBreak(l) by {
      forall h | 0 <= h < |l| ensures !IsLineBreak(l[h]) {
        assert l[h] == raw[i + h];
      }
    }
    SplitNoLineBreak(l, '|');
  }

  /**
   * Every record read from one line (of `obraz.txt` or of a single-line
   * file) can be written to `obraz.txt`: its values come from `|`-separated
   * parts, so none of them holds `|`.
   */
  lemma RecordLineSnapshotable(path: Path, lineNo: nat, raw: string, agent: string, lenient: bool)
    requires NoLineBreak(raw) && RecordLine(path, lineNo, raw, agent, lenient).Ok?
    ensures Snapshotable(RecordLine(path, lineNo, raw, agent, lenient).value)
  {
    var parts := RecordParts(Strip(raw));
    RecordLineNormalised(path, lineNo, raw, agent, lenient);
    RecordPartsClean(raw);
    FieldsClean(parts, "ikona");
    FieldsClean(parts, "proces");
    FieldsStripped(parts);
    LowerClean(Get(Fields(parts), "proces", ""));
  }

  /** The records read line by line from the lines of a text can all be written to `obraz.txt`. */
  lemma CollectSnapshotable(path: Path, lines: seq<string>, agent: string, lenient: bool)
    requires forall k :: 0 <= k < |lines| ==> NoLineBreak(lines[k])
    requires Collect(LineReader(path, agent, lenient), lines, 0).Ok?
    ensures forall k :: 0 <= k < |Collect(LineReader(path, agent, lenient), lines, 0).value| ==>
              Snapshotable(Collect(LineReader(path, agent, lenient), lines, 0).value[k])
  {
    var f := LineReader(path, agent, lenient);
    var P := SnapshotableFrom();
    ReadersSnapshotable(path, agent, lenient);
    CollectEach(f, P, lines, 0);
    var xs := Collect(f, lines, 0).value;
    var idx := NonBlankFrom(lines, 0);
    forall k | 0 <= k < |xs| ensures Snapshotable(xs[k]) {
      assert P(idx[k] + 1, lines[idx[k]], xs[k]);
    }
  }

  /** A record read from a line without breaks can be written to `obraz.txt`. */
  function SnapshotableFrom(): (nat, string, ObjectRecord) -> bool {
    (n: nat, raw: string, r: ObjectRecord) => NoLineBreak(raw) ==> Snapshotable(r)
  }

  lemma ReadersSnapshotable(path: Path, agent: string, lenient: bool)
    ensures forall n: nat, raw: string :: LineReader(path, agent, lenient)(n, raw).Ok? ==>
              SnapshotableFrom()(n, raw, LineReader(path, agent, lenient)(n, raw).value)
  {
    forall n: nat, raw: string | LineReader(path, agent, lenient)(n, raw).Ok?
      ensures SnapshotableFrom()(n, raw, LineReader(path, agent, lenient)(n, raw).value)
    {
      if NoLineBreak(raw) {
        ReaderSnapshotable(path, agent, lenient, n, raw, LineReader(path, agent, lenient)(n, raw).value);
      }
    }
  }

  lemma ReaderSnapshotable(path: Path, agent: string, lenient: bool, n: nat, raw: string, r: ObjectRecord)
    requires NoLineBreak(raw) && LineReader(path, agent, lenient)(n, raw) == Ok(r)
    ensures Snapshotable(r)
  {
    ReaderIs(path, agent, lenient, n, raw);
    RecordLineSnapshotable(path, n, raw, agent, lenient);
  }

  /**
   * The record of a multi-line file can be written to `obraz.txt` exactly
   * when neither its icon nor its state holds `|`: a multi-line file does not
   * split its values at `|`.
   */
  lemma MultiLineSnapshotable(path: Path, lines: seq<string>, agent: string)
    requires forall k :: 0 <= k < |lines| ==> NoLineBreak(lines[k])
    requires MultiLineRecord(path, lines, agent).Ok?
    ensures Snapshotable(MultiLineRecord(path, lines, agent).value)
        <==> '|' !in Get(Fields(lines), "ikona", "") && '|' !in Get(Fields(lines), "proces", "")
  {
    var m := Fields(lines);
    MultiLineNormalised(path, lines, agent);
    FieldsStripped(lines);
    FieldsNoLineBreak(lines, "ikona");
    FieldsNoLineBreak(lines, "proces");
    LowerClean(Get(m, "proces", ""));
  }

  lemma NoLineBreakSlice(s: string, i: nat, j: nat)
    requires NoLineBreak(s) && i <= j <= |s|
    ensures NoLineBreak(s[i..j])
  {
    forall h | 0 <= h < j - i ensures !IsLineBreak(s[i..j][h]) {
      assert s[i..j][h] == s[i + h];
    }
  }

  /** The value of a part without line breaks has none either. */
  lemma KeyValueNoLineBreak(part: string)
    requires NoLineBreak(part) && KeyValue(part).Some?
    ensures NoLineBreak(KeyValue(part).value.1)
  {
    var k := IndexOf(part, '=');
    var v := part[k + 1..];
    NoLineBreakSlice(part, k + 1, |part|);
    StripIsSlice(v);
    var a, b :| 0 <= a <= b <= |v| && Strip(v) == v[a..b];
    NoLineBreakSlice(v, a, b);
  }

  /** Lines without breaks give values without breaks. */
  lemma FieldsNoLineBreak(lines: seq<string>, key: string)
    requires forall k :: 0 <= k < |lines| ==> NoLineBreak(lines[k])
    ensures NoLineBreak(Get(Fields(lines), key, ""))
  {
    if key in Fields(lines) {
      var kvs := KeyValues(lines);
      DictValueFrom(kvs, key);
      var j :| 0 <= j < |kvs| && kvs[j] == Some((key, Dict(kvs)[key]));
      KeyValueNoLineBreak(lines[j]);
    }
  }

  /**
   * The records of a source file can all be written to `obraz.txt` when it is
   * read line by line, and, when it is one multi-line record, exactly when
   * neither its icon nor its state holds `|`.
   */
  lemma ParseSourceFileSnapshotable(path: Path, lines: seq<string>, agent: string)
    requires forall k :: 0 <= k < |lines| ==> NoLineBreak(lines[k])
    requires ParseSourceFile(path, lines, agent).Ok?
    ensures (IsObraz(path) || !IsMultiLine(lines)) ==>
              forall k :: 0 <= k < |ParseSourceFile(path, lines, agent).value| ==>
                Snapshotable(ParseSourceFile(path, lines, agent).value[k])
    ensures (!IsObraz(path) && IsMultiLine(lines)) ==>
              (Snapshotable(ParseSourceFile(path, lines, agent).value[0])
               <==> '|' !in Get(Fields(lines), "ikona", "") && '|' !in Get(Fields(lines), "proces", ""))
  {
    if IsObraz(path) || !IsMultiLine(lines) {
      ParseSourceFileCollects(path, lines, agent);
      CollectSnapshotable(path, lines, agent, IsObraz(path));
    } else {
      MultiLineSnapshotable(path, lines, agent);
    }
  }

  /**
   * The connection of a `linia_dane` file can be written to `polaczenie.txt`
   * exactly when its state holds no `|`: these files do not split values at `|`.
   */
  lemma LineSourceSnapshotable(path: Path, lines: seq<string>, folder: string)
    requires forall k :: 0 <= k < |lines| ==> NoLineBreak(lines[k])
    requires ParseLineSourceFile(path, lines, folder).Ok?
    ensures LineSnapshotable(ParseLineSourceFile(path, lines, folder).value[0])
        <==> '|' !in Get(Fields(lines), "proces", "")
  {
    FieldsStripped(lines);
    FieldsNoLineBreak(lines, "proces");
    LowerClean(Get(Fields(lines), "proces", ""));
  }

  /**
   * A multi-line file holding `ikona=a|b` gives an object whose `obraz.txt`
   * line does not read back as it was written: the icon comes back cut at
   * the `|`, so the summary is not a faithful copy of the folders.
   */
  lemma MultiLinePipeLost(path: Path, obraz: Path, agent: string)
    requires !IsObraz(path) && IsObraz(obraz)
    ensures ParseSourceFile(path, ["ikona=a|b"], agent).Ok?
    ensures var rs := ParseSourceFile(path, ["ikona=a|b"], agent).value;
            |rs| == 1 && rs[0].ikona == "a|b" && !Snapshotable(rs[0])
            && ParseSourceFile(obraz, SplitLines(ObrazText(rs)), "") != Ok(Rereads(rs, obraz))
  {
    var lines := ["ikona=a|b"];
    PipeFileRecord(path, agent);
    var rs := ParseSourceFile(path, lines, agent).value;
    assert Rereads(rs, obraz)[0].ikona == "a|b";
    assert "a|b"[1] == '|';
    ObrazReadNoPipe(obraz, ObrazText(rs));
  }

  /** A file of one `key=value` line builds a dict of that one key. */
  lemma FieldsOne(part: string)
    requires KeyValue(part).Some?
    ensures Fields([part]) == map[KeyValue(part).value.0 := KeyValue(part).value.1]
  {
    var kvs := KeyValues([part]);
    var kv := KeyValue(part).value;
    assert kvs == [Some(kv)];
    assert kvs[..0] == [];
    assert Dict(kvs) == Dict(kvs[..0])[kv.0 := kv.1];
  }

  /** A single `key=value` line with a plain key and a stripped value builds exactly that entry. */
  lemma FieldsOfPart(key: string, v: string)
    requires key != [] && '=' !in key && Stripped(key) && IsLower(key) && Stripped(v)
    ensures Fields([Part(key, v)]) == map[key := v]
  {
    KeyValueOf(key, v);
    StripOfStripped(v);
    FieldsOne(Part(key, v));
  }

  lemma PipeFields()
    ensures Fields(["ikona=a|b"]) == map["ikona" := "a|b"]
  {
    assert Part("ikona", "a|b") == "ikona=a|b";
    FieldsOfPart("ikona", "a|b");
  }

  /** One line that does not start with `xy=` (nor with a blank) is a multi-line file. */
  lemma MultiLineOne(l: string)
    requires l != [] && !IsSpace(l[0]) && l[0] != 'x' && l[0] != 'X'
    ensures IsMultiLine([l])
  {
    assert TrimLeft(l) == l;
    TrimRightSlice(l);
    TrimRightKeeps(l);
    var t := Strip(l);
    assert t[0] == l[0];
    LowerAt(t, 0);
  }

  lemma PipeMultiLine()
    ensures IsMultiLine(["ikona=a|b"])
  {
    MultiLineOne("ikona=a|b");
  }

  lemma PipeFileRecord(path: Path, agent: string)
    requires !IsObraz(path)
    ensures ParseSourceFile(path, ["ikona=a|b"], agent).Ok?
    ensures |ParseSourceFile(path, ["ikona=a|b"], agent).value| == 1
    ensures ParseSourceFile(path, ["ikona=a|b"], agent).value[0].ikona == "a|b"
  {
    PipeFields();
    PipeMultiLine();
    StripOfStripped("0 0");
    ParseXYZero();
  }

  /** No icon read back from `obraz.txt` holds `|`. */
  lemma ObrazReadNoPipe(obraz: Path, text: string)
    requires IsObraz(obraz)
    ensures var back := ParseSourceFile(obraz, SplitLines(text), "");
            back.Ok? ==> forall k :: 0 <= k < |back.value| ==> '|' !in back.value[k].ikona
  {
    if ParseSourceFile(obraz, SplitLines(text), "").Ok? {
      ParseSourceFileSnapshotable(obraz, SplitLines(text), "");
    }
  }
}
