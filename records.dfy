/**
 * Object and connection records as the map reads them from text.
 *
 * A record line is a `|`-separated list of `key=value` parts; a multi-line
 * file holds one `key=value` per line. Keys are cut at the first `=`, stripped
 * and lowercased, values stripped, and a later key replaces an earlier one.
 * `xy`, `xy1` and `xy2` hold two numbers separated by blanks or commas.
 */
module Records {
  import opened Wrappers
  import opened Text
  import opened Numbers
  import opened Fs

  // ---------------------------------------------------------------------------
  // key=value parts
  // ---------------------------------------------------------------------------

  /** `k, v = part.split('=', 1)` with the key stripped and lowercased, the value stripped. */
  function KeyValue(part: string): Option<(string, string)> {
    var k := IndexOf(part, '=');
    if k < |part| then Some((Lower(Strip(part[..k])), Strip(part[k + 1..]))) else None
  }

  /** A part gives an assignment exactly when it holds `=`: a lowercase key and a stripped value. */
  lemma KeyValueSpec(part: string)
    ensures KeyValue(part).Some? <==> '=' in part
    ensures KeyValue(part).Some? ==> Stripped(KeyValue(part).value.1) && IsLower(KeyValue(part).value.0)
  {
    var k := IndexOf(part, '=');
    IndexOfFirst(part, '=');
    if k < |part| {
      StripResult(part[k + 1..]);
      LowerIsLower(Strip(part[..k]));
    }
  }

  /** Does an assignment set `key`? */
  predicate Sets<K(==), V>(o: Option<(K, V)>, key: K) {
    o.Some? && o.value.0 == key
  }

  /** The dict a run of assignments `d[k] = v` builds, `None` standing for no assignment. */
  function Dict<K(==), V>(kvs: seq<Option<(K, V)>>): map<K, V>
    decreases |kvs|
  {
    if kvs == [] then map[]
    else
      var m := Dict(kvs[..|kvs| - 1]);
      match kvs[|kvs| - 1]
      case None => m
      case Some(kv) => m[kv.0 := kv.1]
  }

  /** A key is in the dict exactly when some assignment sets it. */
  lemma {:induction false} DictDomain<K, V>(kvs: seq<Option<(K, V)>>, key: K)
    ensures key in Dict(kvs) <==> exists j :: 0 <= j < |kvs| && Sets(kvs[j], key)
    decreases |kvs|
  {
    if kvs != [] {
      var init := kvs[..|kvs| - 1];
      DictDomain(init, key);
      if key in Dict(init) {
        var j :| 0 <= j < |init| && Sets(init[j], key);
        assert kvs[j] == init[j];
      }
      if exists j :: 0 <= j < |kvs| && Sets(kvs[j], key) {
        var j :| 0 <= j < |kvs| && Sets(kvs[j], key);
        if j < |init| {
          assert init[j] == kvs[j];
        }
      }
    }
  }

  /** For a key set more than once the last assignment wins. */
  lemma {:induction false} DictLastWins<K, V>(kvs: seq<Option<(K, V)>>, j: nat, key: K)
    requires j < |kvs| && Sets(kvs[j], key)
    requires forall i :: j < i < |kvs| ==> !Sets(kvs[i], key)
    ensures key in Dict(kvs) && Dict(kvs)[key] == kvs[j].value.1
    decreases |kvs|
  {
    var init := kvs[..|kvs| - 1];
    if j < |kvs| - 1 {
      forall i | j < i < |init| ensures !Sets(init[i], key) {
        assert init[i] == kvs[i];
      }
      DictLastWins(init, j, key);
    }
  }

  /** Every value in the dict was assigned by one of the assignments. */
  lemma {:induction false} DictValueFrom<K, V>(kvs: seq<Option<(K, V)>>, key: K)
    requires key in Dict(kvs)
    ensures exists j :: 0 <= j < |kvs| && kvs[j] == Some((key, Dict(kvs)[key]))
    decreases |kvs|
  {
    var init := kvs[..|kvs| - 1];
    if kvs[|kvs| - 1] == Some((key, Dict(kvs)[key])) {
    } else {
      DictValueFrom(init, key);
      var j :| 0 <= j < |init| && init[j] == Some((key, Dict(init)[key]));
      assert kvs[j] == init[j];
    }
  }

  function KeyValues(parts: seq<string>): (r: seq<Option<(string, string)>>)
    ensures |r| == |parts|
    ensures forall k :: 0 <= k < |r| ==> r[k] == KeyValue(parts[k])
  {
    if parts == [] then [] else [KeyValue(parts[0])] + KeyValues(parts[1..])
  }

  /** The dict a sequence of parts builds: `data[k] = v` for each part holding `=`. */
  function Fields(parts: seq<string>): map<string, string> {
    Dict(KeyValues(parts))
  }

  /** A key is in the dict exactly when some part carries it. */
  lemma FieldsDomain(parts: seq<string>, key: string)
    ensures key in Fields(parts) <==> exists j :: 0 <= j < |parts| && Sets(KeyValue(parts[j]), key)
  {
    var kvs := KeyValues(parts);
    DictDomain(kvs, key);
    if key in Fields(parts) {
      var j :| 0 <= j < |kvs| && Sets(kvs[j], key);
      assert Sets(KeyValue(parts[j]), key);
    }
  }

  /** For a duplicated key the last part carrying it wins. */
  lemma FieldsLastWins(parts: seq<string>, j: nat, key: string)
    requires j < |parts| && Sets(KeyValue(parts[j]), key)
    requires forall i :: j < i < |parts| ==> !Sets(KeyValue(parts[i]), key)
    ensures key in Fields(parts) && Fields(parts)[key] == KeyValue(parts[j]).value.1
  {
    DictLastWins(KeyValues(parts), j, key);
  }

  /** Every value in the dict is stripped. */
  lemma FieldsStripped(parts: seq<string>)
    ensures forall k :: k in Fields(parts) ==> Stripped(Fields(parts)[k])
  {
    var kvs := KeyValues(parts);
    forall k | k in Fields(parts) ensures Stripped(Fields(parts)[k]) {
      DictValueFrom(kvs, k);
      var j :| 0 <= j < |kvs| && kvs[j] == Some((k, Dict(kvs)[k]));
      KeyValueSpec(parts[j]);
    }
  }

  /** `data.get(key, default)`. */
  function Get(m: map<string, string>, key: string, default: string): string {
    if key in m then m[key] else default
  }

  /** `[p for p in line.split('|') if p.strip()]`. */
  function RecordParts(line: string): seq<string> {
    NonBlank(Split(line, '|'))
  }

  function NonBlank(ps: seq<string>): (r: seq<string>)
    ensures |r| <= |ps|
    ensures forall k :: 0 <= k < |r| ==> r[k] in ps && Strip(r[k]) != []
  {
    if ps == [] then []
    else if Strip(ps[0]) == [] then NonBlank(ps[1..])
    else [ps[0]] + NonBlank(ps[1..])
  }

  // ---------------------------------------------------------------------------
  // coordinates and size
  // ---------------------------------------------------------------------------

  /** `float(t) if t else 0.0`. */
  function Coord(t: string): Parsed<real> {
    if t == [] then Ok(0.0)
    else match ParseNumber(t)
      case None => BadNumber(t)
      case Some(d) => Ok(Value(d))
  }

  /**
   * The two coordinates of an `xy` value: the first two pieces of
   * `re.split(r'[\s,]+', v)`; an empty or missing piece is 0, a piece that is
   * not a number raises (x is read before y).
   */
  function ParseXY(v: string): Parsed<(real, real)> {
    var ps := SplitSeps(v);
    match Coord(ps[0])
    case BadNumber(t) => BadNumber(t)
    case Ok(x) =>
      match (if |ps| > 1 then Coord(ps[1]) else Ok(0.0))
      case BadNumber(t) => BadNumber(t)
      case Ok(y) => Ok((x, y))
  }

  /** Integers written as `"X Y"` are read back as they were written. */
  lemma ParseXYOfInts(x: int, y: int)
    ensures ParseXY(IntToString(x) + " " + IntToString(y)) == Ok((x as real, y as real))
  {
    IntToStringShape(x);
    IntToStringShape(y);
    SplitSepsPair(IntToString(x), IntToString(y));
    CoordOfInt(x);
    CoordOfInt(y);
  }

  lemma CoordOfInt(i: int)
    ensures Coord(IntToString(i)) == Ok(i as real)
  {
    IntToStringParse(i);
    assert Value(Dec(i, 0)) == i as real;
  }

  /** An empty value puts the point at the origin. */
  lemma ParseXYEmpty()
    ensures ParseXY("") == Ok((0.0, 0.0))
  {
    assert SplitSeps("") == [[]];
  }

  /** The default `"0 0"` puts the point at the origin. */
  lemma ParseXYZero()
    ensures ParseXY("0 0") == Ok((0.0, 0.0))
  {
    var z := IntToString(0);
    assert z == [DigitChar(0)] == "0";
    assert z + " " + z == "0 0";
    ParseXYOfInts(0, 0);
  }

  /** `str(size).replace(',', '.')`. */
  function CommaToPoint(s: string): (r: string)
    ensures |r| == |s| && ',' !in r
    ensures forall i :: 0 <= i < |s| ==> r[i] == (if s[i] == ',' then '.' else s[i])
  {
    if s == [] then [] else [if s[0] == ',' then '.' else s[0]] + CommaToPoint(s[1..])
  }

  /** `max(0.01, size)`, compared without division: `m / 10^e >= 1/100`. */
  function Clamp(d: Dec): (r: Dec)
    ensures 100 * r.m >= Pow10(r.e)
  {
    if 100 * d.m >= Pow10(d.e) then d else Dec(1, 2)
  }

  lemma AtLeastHundredth(d: Dec)
    ensures 100 * d.m >= Pow10(d.e) <==> Value(d) >= 0.01
  {
    Hundredth(d.m as real, Pow10(d.e) as real);
  }

  lemma Hundredth(a: real, p: real)
    requires p > 0.0
    ensures a / p >= 0.01 <==> 100.0 * a >= p
  {
    var q := a / p;
    assert q * p == a;
    if q >= 0.01 {
      assert q * p >= 0.01 * p;
    } else {
      assert q * p < 0.01 * p;
    }
  }

  /** The clamped size is the size, or 0.01 when the size is smaller. */
  lemma ClampValue(d: Dec)
    ensures Value(Clamp(d)) >= 0.01
    ensures Value(Clamp(d)) == (if Value(d) >= 0.01 then Value(d) else 0.01)
  {
    AtLeastHundredth(d);
    AtLeastHundredth(Clamp(d));
    assert Pow10(2) == 100;
  }

  /** `str(max(0.01, size))`. */
  function SizeText(d: Dec): string {
    FloatText(Canon(Clamp(d)))
  }

  /** Reading a size text back gives the clamped size. */
  lemma SizeTextValue(d: Dec)
    ensures ParseNumber(SizeText(d)).Some?
    ensures Value(ParseNumber(SizeText(d)).value) == (if Value(d) >= 0.01 then Value(d) else 0.01)
  {
    var c := Canon(Clamp(d));
    FloatTextRoundTrip(c);
    ClampValue(d);
    var p := ParseNumber(SizeText(d)).value;
    assert Value(p) == Value(Canon(p));
  }

  /** A text that the size rule leaves as it is: what every parsed record holds. */
  predicate IsSizeText(s: string) {
    ParseNumber(s).Some? && s == SizeText(ParseNumber(s).value)
  }

  /** Every size text is one the size rule leaves as it is. */
  lemma SizeTextStable(d: Dec)
    ensures IsSizeText(SizeText(d))
  {
    var c := Canon(Clamp(d));
    FloatTextRoundTrip(c);
    ClampValue(d);
    var p := ParseNumber(SizeText(d)).value;
    assert Canon(p) == c;
    assert Value(p) >= 0.01;
    AtLeastHundredth(p);
    assert Clamp(p) == p;
  }

  /** The default size: `1.0`. */
  lemma DefaultSizeText()
    ensures SizeText(Dec(1, 0)) == "1.0"
  {
    assert Clamp(Dec(1, 0)) == Dec(1, 0);
    assert Canon(Dec(1, 0)) == Dec(1, 0);
    assert NatToString(1) == "1";
    assert MagnitudeText(1, 0) == "1.0";
  }

  /**
   * The size in `obraz.txt` and multi-line files: the `rozmiar` value with `,`
   * read as `.`, clamped; 1.0 when it is absent or not a number.
   */
  function LenientSize(m: map<string, string>): string {
    if "rozmiar" in m then
      match ParseNumber(CommaToPoint(m["rozmiar"]))
      case None => SizeText(Dec(1, 0))
      case Some(d) => SizeText(d)
    else SizeText(Dec(1, 0))
  }

  /** The size in single-line files: as above, but a value that is not a number raises. */
  function StrictSize(m: map<string, string>): Parsed<string> {
    var t := CommaToPoint(Get(m, "rozmiar", "1"));
    match ParseNumber(t)
    case None => BadNumber(t)
    case Some(d) => Ok(SizeText(d))
  }

  lemma LenientSizeIsSizeText(m: map<string, string>)
    ensures IsSizeText(LenientSize(m))
  {
    if "rozmiar" in m && ParseNumber(CommaToPoint(m["rozmiar"])).Some? {
      SizeTextStable(ParseNumber(CommaToPoint(m["rozmiar"])).value);
    } else {
      SizeTextStable(Dec(1, 0));
    }
  }

  lemma StrictSizeIsSizeText(m: map<string, string>)
    requires StrictSize(m).Ok?
    ensures IsSizeText(StrictSize(m).value)
  {
    SizeTextStable(ParseNumber(CommaToPoint(Get(m, "rozmiar", "1"))).value);
  }

  // ---------------------------------------------------------------------------
  // object records
  // ---------------------------------------------------------------------------

  datatype ObjectRecord = ObjectRecord(
    x: real, y: real,
    ikona: string, rozmiar: string, proces: string,
    file: Path, lineNo: nat, rawLine: string,
    isSourceMulti: bool, agentFolder: string)

  /** What every parsed record satisfies: a size text, a stripped icon and a lowercase state. */
  predicate Normalised(r: ObjectRecord) {
    IsSizeText(r.rozmiar) && Stripped(r.ikona) && IsLower(r.proces)
  }

  /**
   * One line of `obraz.txt` (lenient size) or of a single-line file (strict
   * size), numbered `lineNo`.
   */
  function RecordLine(path: Path, lineNo: nat, raw: string, agent: string, lenient: bool): (r: Parsed<ObjectRecord>)
    ensures r.Ok? ==> r.value.lineNo == lineNo && r.value.rawLine == raw && r.value.file == path
    ensures r.Ok? ==> !r.value.isSourceMulti && r.value.agentFolder == agent
  {
    var m := Fields(RecordParts(Strip(raw)));
    match ParseXY(Strip(Get(m, "xy", "0 0")))
    case BadNumber(t) => BadNumber(t)
    case Ok(xy) =>
      match (if lenient then Ok(LenientSize(m)) else StrictSize(m))
      case BadNumber(t) => BadNumber(t)
      case Ok(rozmiar) =>
        Ok(ObjectRecord(xy.0, xy.1, Get(m, "ikona", ""), rozmiar, Lower(Get(m, "proces", "")),
                        path, lineNo, raw, false, agent))
  }

  lemma NormalisedFields(m: map<string, string>, rozmiar: string)
    requires forall k :: k in m ==> Stripped(m[k])
    requires IsSizeText(rozmiar)
    ensures Stripped(Get(m, "ikona", ""))
    ensures IsLower(Lower(Get(m, "proces", "")))
  {
    LowerIsLower(Get(m, "proces", ""));
  }

  /** Every record a line yields is normalised. */
  lemma RecordLineNormalised(path: Path, lineNo: nat, raw: string, agent: string, lenient: bool)
    requires RecordLine(path, lineNo, raw, agent, lenient).Ok?
    ensures Normalised(RecordLine(path, lineNo, raw, agent, lenient).value)
  {
    var m := Fields(RecordParts(Strip(raw)));
    FieldsStripped(RecordParts(Strip(raw)));
    var rozmiar := RecordLine(path, lineNo, raw, agent, lenient).value.rozmiar;
    if lenient {
      LenientSizeIsSizeText(m);
    } else {
      StrictSizeIsSizeText(m);
    }
    NormalisedFields(m, rozmiar);
  }

  /** A bad size makes a single-line record raise but falls back to 1.0 in `obraz.txt`. */
  lemma BadSize(path: Path, lineNo: nat, raw: string, agent: string)
    requires var m := Fields(RecordParts(Strip(raw)));
             ParseXY(Strip(Get(m, "xy", "0 0"))).Ok?
             && "rozmiar" in m && ParseNumber(CommaToPoint(m["rozmiar"])).None?
    ensures RecordLine(path, lineNo, raw, agent, false).BadNumber?
    ensures RecordLine(path, lineNo, raw, agent, true).Ok?
    ensures RecordLine(path, lineNo, raw, agent, true).value.rozmiar == "1.0"
  {
    DefaultSizeText();
  }

  // ---------------------------------------------------------------------------
  // line-by-line reading
  // ---------------------------------------------------------------------------

  /** The 0-based indices of the non-blank lines from `i` on, in order. */
  function NonBlankFrom(lines: seq<string>, i: nat): (r: seq<nat>)
    requires i <= |lines|
    ensures forall k :: 0 <= k < |r| ==> i <= r[k] < |lines|
    decreases |lines| - i
  {
    if i == |lines| then []
    else if Strip(lines[i]) == [] then NonBlankFrom(lines, i + 1)
    else [i] + NonBlankFrom(lines, i + 1)
  }

  /**
   * `for i, raw in enumerate(lines, 1)`, skipping blank lines: the items `f`
   * reads from `lines[i..]`, or the first number it could not read.
   */
  function Collect<T>(f: (nat, string) -> Parsed<T>, lines: seq<string>, i: nat): Parsed<seq<T>>
    requires i <= |lines|
    decreases |lines| - i
  {
    if i == |lines| then Ok([])
    else if Strip(lines[i]) == [] then Collect(f, lines, i + 1)
    else
      match f(i + 1, lines[i])
      case BadNumber(t) => BadNumber(t)
      case Ok(x) =>
        match Collect(f, lines, i + 1)
        case BadNumber(t) => BadNumber(t)
        case Ok(rest) => Ok([x] + rest)
  }

  /**
   * Every non-blank line yields exactly one item, read with its 1-based
   * position in the file (blank lines count), in file order.
   */
  lemma {:induction false} CollectShape<T>(f: (nat, string) -> Parsed<T>, lines: seq<string>, i: nat)
    requires i <= |lines|
    requires Collect(f, lines, i).Ok?
    ensures var xs := Collect(f, lines, i).value;
            var idx := NonBlankFrom(lines, i);
            |xs| == |idx|
            && forall k :: 0 <= k < |xs| ==> f(idx[k] + 1, lines[idx[k]]) == Ok(xs[k])
    decreases |lines| - i
  {
    if i < |lines| {
      CollectShape(f, lines, i + 1);
    }
  }

  /** Reading succeeds exactly when every non-blank line can be read. */
  lemma {:induction false} CollectOk<T>(f: (nat, string) -> Parsed<T>, lines: seq<string>, i: nat)
    requires i <= |lines|
    ensures Collect(f, lines, i).Ok?
        <==> forall j :: i <= j < |lines| && Strip(lines[j]) != [] ==> f(j + 1, lines[j]).Ok?
    decreases |lines| - i
  {
    if i < |lines| {
      CollectOk(f, lines, i + 1);
    }
  }

  /** When every line from `i` on is non-blank and reads as `xs` says, that is what is read. */
  lemma {:induction false} CollectExact<T>(f: (nat, string) -> Parsed<T>, lines: seq<string>, i: nat, xs: seq<T>)
    requires i <= |lines| == |xs|
    requires forall j :: i <= j < |lines| ==> Strip(lines[j]) != [] && f(j + 1, lines[j]) == Ok(xs[j])
    ensures Collect(f, lines, i) == Ok(xs[i..])
    decreases |lines| - i
  {
    if i < |lines| {
      CollectExact(f, lines, i + 1, xs);
      assert xs[i..] == [xs[i]] + xs[i + 1..];
    }
  }

  /**
   * `for raw in lines` inside one `try`, skipping blank lines: the items read
   * before the first line that raises.
   */
  function ReadUntilError<T>(f: string -> Parsed<T>, lines: seq<string>): (r: seq<T>)
    ensures |r| <= |lines|
  {
    if lines == [] then []
    else if Strip(lines[0]) == [] then ReadUntilError(f, lines[1..])
    else match f(lines[0])
      case BadNumber(_) => []
      case Ok(x) => [x] + ReadUntilError(f, lines[1..])
  }

  /** What is read is what the lines before the first failing one give. */
  lemma {:induction false} ReadUntilErrorPrefix<T>(f: string -> Parsed<T>, lines: seq<string>, n: nat)
    requires n <= |lines|
    requires forall k :: 0 <= k < n ==> Strip(lines[k]) == [] || f(lines[k]).Ok?
    requires n < |lines| ==> Strip(lines[n]) != [] && f(lines[n]).BadNumber?
    ensures ReadUntilError(f, lines) == ReadUntilError(f, lines[..n])
    decreases n
  {
    if n == 0 {
      if lines != [] {
        assert lines[..0] == [];
      }
    } else {
      ReadUntilErrorPrefix(f, lines[1..], n - 1);
      assert lines[1..][..n - 1] == lines[..n][1..];
    }
  }

  /** When every line is non-blank and reads as `xs` says, that is what is read. */
  lemma {:induction false} ReadUntilErrorExact<T>(f: string -> Parsed<T>, lines: seq<string>, xs: seq<T>)
    requires |lines| == |xs|
    requires forall j :: 0 <= j < |lines| ==> Strip(lines[j]) != [] && f(lines[j]) == Ok(xs[j])
    ensures ReadUntilError(f, lines) == xs
  {
    if lines != [] {
      ReadUntilErrorExact(f, lines[1..], xs[1..]);
      assert xs == [xs[0]] + xs[1..];
    }
  }

  /** When every non-blank line can be read, each of them gives one item. */
  lemma {:induction false} ReadUntilErrorAll<T>(f: string -> Parsed<T>, lines: seq<string>)
    requires forall k :: 0 <= k < |lines| ==> Strip(lines[k]) == [] || f(lines[k]).Ok?
    ensures |ReadUntilError(f, lines)| == |NonBlankFrom(lines, 0)|
  {
    if lines != [] {
      ReadUntilErrorAll(f, lines[1..]);
      NonBlankShiftFrom(lines, 1);
    }
  }

  lemma {:induction false} NonBlankShiftFrom(lines: seq<string>, i: nat)
    requires 1 <= i <= |lines|
    ensures |NonBlankFrom(lines, i)| == |NonBlankFrom(lines[1..], i - 1)|
    decreases |lines| - i
  {
    if i < |lines| {
      NonBlankShiftFrom(lines, i + 1);
      assert lines[1..][i - 1] == lines[i];
    }
  }

  // ---------------------------------------------------------------------------
  // source files
  // ---------------------------------------------------------------------------

  /** The format heuristic: which files are read as one multi-line record. */
  predicate IsMultiLine(lines: seq<string>) {
    || (|lines| > 1 && forall k :: 0 <= k < |lines| ==> '=' in lines[k])
    || (|lines| == 1 && !StartsWith(Lower(Strip(lines[0])), "xy="))
  }

  /** The one record of a multi-line file: every line holding `=` is a part. */
  function MultiLineRecord(path: Path, lines: seq<string>, agent: string): (r: Parsed<ObjectRecord>)
    ensures r.Ok? ==> r.value.lineNo == 1 && r.value.rawLine == Join(lines, "\n") && r.value.isSourceMulti
    ensures r.Ok? ==> r.value.file == path && r.value.agentFolder == agent
  {
    var m := Fields(lines);
    match ParseXY(Strip(Get(m, "xy", "0 0")))
    case BadNumber(t) => BadNumber(t)
    case Ok(xy) =>
      Ok(ObjectRecord(xy.0, xy.1, Get(m, "ikona", ""), LenientSize(m), Lower(Get(m, "proces", "")),
                      path, 1, Join(lines, "\n"), true, agent))
  }

  lemma MultiLineNormalised(path: Path, lines: seq<string>, agent: string)
    requires MultiLineRecord(path, lines, agent).Ok?
    ensures Normalised(MultiLineRecord(path, lines, agent).value)
  {
    var m := Fields(lines);
    FieldsStripped(lines);
    LenientSizeIsSizeText(m);
    NormalisedFields(m, LenientSize(m));
  }

  /** The reader for one line: lenient in `obraz.txt`, strict in a single-line file. */
  function LineReader(path: Path, agent: string, lenient: bool): (nat, string) -> Parsed<ObjectRecord> {
    (n: nat, raw: string) => RecordLine(path, n, raw, agent, lenient)
  }

  predicate IsObraz(path: Path) {
    Lower(Name(path)) == "obraz.txt"
  }

  /** `parse_source_file(path, lines, agent_folder)`: the records of one file, or the number it choked on. */
  function ParseSourceFile(path: Path, lines: seq<string>, agent: string): Parsed<seq<ObjectRecord>> {
    if IsObraz(path) then
      Collect(LineReader(path, agent, true), lines, 0)
    else if IsMultiLine(lines) then
      match MultiLineRecord(path, lines, agent)
      case BadNumber(t) => BadNumber(t)
      case Ok(rec) => Ok([rec])
    else
      Collect(LineReader(path, agent, false), lines, 0)
  }

  /** Whatever holds of every item `f` reads holds of every item `Collect` returns. */
  lemma CollectEach<T>(f: (nat, string) -> Parsed<T>, P: (nat, string, T) -> bool, lines: seq<string>, i: nat)
    requires i <= |lines|
    requires forall n: nat, raw: string :: f(n, raw).Ok? ==> P(n, raw, f(n, raw).value)
    requires Collect(f, lines, i).Ok?
    ensures var xs := Collect(f, lines, i).value;
            var idx := NonBlankFrom(lines, i);
            |xs| == |idx| && forall k :: 0 <= k < |xs| ==> P(idx[k] + 1, lines[idx[k]], xs[k])
  {
    CollectShape(f, lines, i);
    var xs := Collect(f, lines, i).value;
    var idx := NonBlankFrom(lines, i);
    forall k | 0 <= k < |xs| ensures P(idx[k] + 1, lines[idx[k]], xs[k]) {
      assert f(idx[k] + 1, lines[idx[k]]) == Ok(xs[k]);
    }
  }

  /** What a record read from line `n` holding `raw` looks like. */
  function RecordShape(path: Path, agent: string): (nat, string, ObjectRecord) -> bool {
    (n: nat, raw: string, r: ObjectRecord) =>
      Normalised(r) && r.file == path && r.agentFolder == agent
      && r.lineNo == n && r.rawLine == raw && !r.isSourceMulti
  }

  lemma ReaderShape(path: Path, agent: string, lenient: bool)
    ensures forall n: nat, raw: string :: LineReader(path, agent, lenient)(n, raw).Ok? ==>
              RecordShape(path, agent)(n, raw, LineReader(path, agent, lenient)(n, raw).value)
  {
    forall n: nat, raw: string | LineReader(path, agent, lenient)(n, raw).Ok?
      ensures RecordShape(path, agent)(n, raw, LineReader(path, agent, lenient)(n, raw).value)
    {
      ReaderRecord(path, agent, lenient, n, raw, LineReader(path, agent, lenient)(n, raw).value);
    }
  }

  /**
   * The records of `obraz.txt` and of single-line files: one per non-blank
   * line, numbered from 1 with blank lines counted, each normalised and
   * belonging to its file and agent.
   */
  lemma RecordLinesShape(path: Path, lines: seq<string>, agent: string, lenient: bool)
    requires Collect(LineReader(path, agent, lenient), lines, 0).Ok?
    ensures var rs := Collect(LineReader(path, agent, lenient), lines, 0).value;
            var idx := NonBlankFrom(lines, 0);
            |rs| == |idx|
            && forall k :: 0 <= k < |rs| ==>
                 Normalised(rs[k]) && rs[k].file == path && rs[k].agentFolder == agent
                 && rs[k].lineNo == idx[k] + 1 && rs[k].rawLine == lines[idx[k]] && !rs[k].isSourceMulti
  {
    ReaderShape(path, agent, lenient);
    CollectEach(LineReader(path, agent, lenient), RecordShape(path, agent), lines, 0);
  }

  lemma ReaderRecord(path: Path, agent: string, lenient: bool, n: nat, raw: string, r: ObjectRecord)
    requires LineReader(path, agent, lenient)(n, raw) == Ok(r)
    ensures Normalised(r) && r.file == path && r.agentFolder == agent
    ensures r.lineNo == n && r.rawLine == raw && !r.isSourceMulti
  {
    assert RecordLine(path, n, raw, agent, lenient) == Ok(r);
    RecordLineNormalised(path, n, raw, agent, lenient);
  }

  /** A multi-line file gives one normalised record, numbered 1, holding all its lines. */
  lemma MultiLineShape(path: Path, lines: seq<string>, agent: string)
    requires !IsObraz(path) && IsMultiLine(lines)
    requires ParseSourceFile(path, lines, agent).Ok?
    ensures var rs := ParseSourceFile(path, lines, agent).value;
            |rs| == 1 && rs[0].lineNo == 1 && rs[0].rawLine == Join(lines, "\n") && rs[0].isSourceMulti
            && Normalised(rs[0]) && rs[0].file == path && rs[0].agentFolder == agent
  {
    MultiLineNormalised(path, lines, agent);
  }

  /** Every record of `rs` is normalised and belongs to file `path` and folder `agent`. */
  predicate Belongs(rs: seq<ObjectRecord>, path: Path, agent: string) {
    forall k :: 0 <= k < |rs| ==> Normalised(rs[k]) && rs[k].file == path && rs[k].agentFolder == agent
  }

  /** Every record of a file is normalised and belongs to that file and agent. */
  lemma ParseSourceFileNormalised(path: Path, lines: seq<string>, agent: string)
    requires ParseSourceFile(path, lines, agent).Ok?
    ensures Belongs(ParseSourceFile(path, lines, agent).value, path, agent)
  {
    if !IsObraz(path) && IsMultiLine(lines) {
      MultiLineBelongs(path, lines, agent);
    } else {
      ParseSourceFileCollects(path, lines, agent);
      CollectBelongs(path, lines, agent, IsObraz(path));
    }
  }

  /** Outside the multi-line case a file is read line by line. */
  lemma ParseSourceFileCollects(path: Path, lines: seq<string>, agent: string)
    requires IsObraz(path) || !IsMultiLine(lines)
    ensures ParseSourceFile(path, lines, agent) == Collect(LineReader(path, agent, IsObraz(path)), lines, 0)
  {
  }

  lemma MultiLineBelongs(path: Path, lines: seq<string>, agent: string)
    requires !IsObraz(path) && IsMultiLine(lines)
    requires ParseSourceFile(path, lines, agent).Ok?
    ensures Belongs(ParseSourceFile(path, lines, agent).value, path, agent)
  {
    var rs := ParseSourceFile(path, lines, agent).value;
    MultiLineShape(path, lines, agent);
    forall k | 0 <= k < |rs| ensures Normalised(rs[k]) && rs[k].file == path && rs[k].agentFolder == agent {
      assert k == 0;
    }
  }

  lemma CollectBelongs(path: Path, lines: seq<string>, agent: string, lenient: bool)
    requires Collect(LineReader(path, agent, lenient), lines, 0).Ok?
    ensures Belongs(Collect(LineReader(path, agent, lenient), lines, 0).value, path, agent)
  {
    RecordLinesShape(path, lines, agent, lenient);
  }

  lemma ReaderIs(path: Path, agent: string, lenient: bool, n: nat, raw: string)
    ensures LineReader(path, agent, lenient)(n, raw) == RecordLine(path, n, raw, agent, lenient)
  {
  }

  /** A file reads without error exactly when none of its record lines has a bad number. */
  lemma ParseSourceFileOk(path: Path, lines: seq<string>, agent: string)
    requires IsObraz(path) || !IsMultiLine(lines)
    ensures ParseSourceFile(path, lines, agent).Ok?
        <==> forall j :: 0 <= j < |lines| && Strip(lines[j]) != [] ==>
               RecordLine(path, j + 1, lines[j], agent, IsObraz(path)).Ok?
  {
    var f := LineReader(path, agent, IsObraz(path));
    var readsOk := forall j :: 0 <= j < |lines| && Strip(lines[j]) != [] ==> f(j + 1, lines[j]).Ok?;
    var linesOk := forall j :: 0 <= j < |lines| && Strip(lines[j]) != [] ==>
                     RecordLine(path, j + 1, lines[j], agent, IsObraz(path)).Ok?;
    assert ParseSourceFile(path, lines, agent).Ok? <==> readsOk by {
      ParseSourceFileCollects(path, lines, agent);
      CollectOk(f, lines, 0);
    }
    assert readsOk <==> linesOk by {
      forall j | 0 <= j < |lines|
        ensures f(j + 1, lines[j]) == RecordLine(path, j + 1, lines[j], agent, IsObraz(path))
      {
        ReaderIs(path, agent, IsObraz(path), j + 1, lines[j]);
      }
    }
  }

  // ---------------------------------------------------------------------------
  // connection records
  // ---------------------------------------------------------------------------

  /** A connection as `linia_dane` files describe it. */
  datatype LineRecord = LineRecord(
    x1: real, y1: real, x2: real, y2: real, proces: string,
    file: Path, lineFolder: string)

  /** `(s or "0 0")` for `data.get(key)`. */
  function PointValue(m: map<string, string>, key: string): (r: string)
    ensures r != []
  {
    if key in m && m[key] != [] then m[key] else "0 0"
  }

  /** `_xy(data.get(key))`: an absent or empty value is the origin. */
  function PointOf(m: map<string, string>, key: string): (r: Parsed<(real, real)>)
    ensures (key !in m || m[key] == []) ==> r == Ok((0.0, 0.0))
  {
    ParseXYZero();
    ParseXY(PointValue(m, key))
  }

  /** `parse_line_source_file`: one connection from the `key=value` lines of a file. */
  function ParseLineSourceFile(path: Path, lines: seq<string>, folder: string): (r: Parsed<seq<LineRecord>>)
    ensures r.Ok? ==> |r.value| == 1 && r.value[0].file == path && r.value[0].lineFolder == folder
    ensures r.Ok? ==> IsLower(r.value[0].proces)
  {
    var m := Fields(lines);
    match PointOf(m, "xy1")
    case BadNumber(t) => BadNumber(t)
    case Ok(p1) =>
      match PointOf(m, "xy2")
      case BadNumber(t) => BadNumber(t)
      case Ok(p2) =>
        LowerIsLower(Get(m, "proces", ""));
        Ok([LineRecord(p1.0, p1.1, p2.0, p2.1, Lower(Get(m, "proces", "")), path, folder)])
  }

  /** A connection as `polaczenie.txt` shows it. */
  datatype Connection = Connection(x1: real, y1: real, x2: real, y2: real, proces: string)

  /** One non-blank line of `polaczenie.txt`. */
  function ConnectionLine(raw: string): (r: Parsed<Connection>)
    ensures r.Ok? ==> IsLower(r.value.proces)
  {
    var m := Fields(RecordParts(Strip(raw)));
    match PointOf(m, "xy1")
    case BadNumber(t) => BadNumber(t)
    case Ok(p1) =>
      match PointOf(m, "xy2")
      case BadNumber(t) => BadNumber(t)
      case Ok(p2) =>
        LowerIsLower(Get(m, "proces", ""));
        Ok(Connection(p1.0, p1.1, p2.0, p2.1, Lower(Get(m, "proces", ""))))
  }

  /** The parsing in `load_line_display_data`: the connections before the first line that raises. */
  function ConnectionLines(lines: seq<string>): seq<Connection> {
    ReadUntilError(ConnectionLine, lines)
  }
}
