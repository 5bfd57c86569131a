/**
 * The placement bar: a strip of slots, each bound to a template folder next
 * to it. While it is switched on, every new double click on the map copies
 * the selected template into the object folder as a new object standing at
 * the clicked point. A signal file asks it to bind the first template
 * folder without a slot to the selected slot, replacing the folder bound
 * there before.
 */
module PlacementBar {
  import opened Wrappers
  import opened Text
  import opened Numbers
  import opened Fs
  import opened Sensors
  import Matching
  import Repository

  /** The bar's own folder, below the base directory; its template folders are inside it. */
  const Base: Path := ["mapa", "auto_start", "pasek"]
  const SlotName: string := "slot.txt"
  /** The selected slot. */
  const SlotPath: Path := Base + [SlotName]
  /** `on` or `off`: whether clicks on the map add objects. */
  const StanPath: Path := ["mapa", "auto_start", "pasek", "stan.txt"]
  /** Touched to ask for the selected slot to be given to a new template folder. */
  const SignalPath: Path := ["mapa", "auto_start", "pasek", "sygna\U{0142}.txt"]
  /** The sensor file of the last double left click on the map. */
  const Lp2Path: Path := ["mapa", "sensory", "2xlp.txt"]

  // ---------------------------------------------------------------------------
  // The point of the last double click: RX_START
  // ---------------------------------------------------------------------------

  /** How many characters `\s*` takes at the start of `u`. */
  function SpaceRun(u: string): (n: nat)
    ensures n <= |u|
    ensures forall k :: 0 <= k < n ==> IsSpace(u[k])
    ensures n < |u| ==> !IsSpace(u[n])
  {
    if u != [] && IsSpace(u[0]) then 1 + SpaceRun(u[1..]) else 0
  }

  /** How many characters `\d*` takes at the start of `u`. */
  function DigitRun(u: string): (n: nat)
    ensures n <= |u|
    ensures AllDigits(u[..n])
    ensures n < |u| ==> !IsDigit(u[n])
  {
    if u != [] && IsDigit(u[0]) then
      var n := 1 + DigitRun(u[1..]);
      assert forall k :: 1 <= k < n ==> u[..n][k] == u[1..][..n - 1][k - 1];
      n
    else 0
  }

  /** `-?\d+` at the start of `u`, with `int()` of it: the value and the length taken. */
  function IntPrefix(u: string): (r: Option<(int, nat)>)
    ensures r.Some? ==> 1 <= r.value.1 <= |u|
  {
    var neg := u != [] && u[0] == '-';
    var body := if neg then u[1..] else u;
    var n := DigitRun(body);
    if n == 0 then None
    else
      var v: int := DigitsValue(body[..n]);
      Some((if neg then -v else v, if neg then n + 1 else n))
  }

  /** `start\s*=\s*(-?\d+)\s+(-?\d+)` at the start of `u`: the two numbers. */
  function StartPrefix(u: string): Option<(int, int)> {
    if StartsWith(u, "start") then AfterKeyword(u[5..]) else None
  }

  /** `\s*=` and the rest of the pattern. */
  function AfterKeyword(u: string): Option<(int, int)> {
    var a := SpaceRun(u);
    if a < |u| && u[a] == '=' then TwoInts(u[a + 1..]) else None
  }

  /** `\s*(-?\d+)\s+(-?\d+)`. */
  function TwoInts(u: string): Option<(int, int)> {
    match IntPrefix(u[SpaceRun(u)..])
    case None => None
    case Some((x, n)) => SecondInt(x, u[SpaceRun(u)..][n..])
  }

  /** `\s+(-?\d+)` after the first number `x`. */
  function SecondInt(x: int, u: string): Option<(int, int)> {
    var b := SpaceRun(u);
    if b == 0 then None
    else
      match IntPrefix(u[b..])
      case None => None
      case Some((y, _)) => Some((x, y))
  }

  /**
   * `RX_START.search(u)` under `re.M`, where `atLineStart` says whether `^`
   * may match at the start of `u` (it may at the start of the text and
   * after each `\n`).
   */
  function SearchFrom(u: string, atLineStart: bool): Option<(int, int)>
    decreases |u|
  {
    if atLineStart && StartPrefix(u).Some? then StartPrefix(u)
    else if u == [] then None
    else SearchFrom(u[1..], u[0] == '\n')
  }

  function StartSearch(s: string): Option<(int, int)> {
    SearchFrom(s, true)
  }

  /** A match found by the search begins a line of the text, at `i`. */
  lemma {:induction false} SearchFromFound(u: string, atLineStart: bool) returns (i: nat)
    requires SearchFrom(u, atLineStart).Some?
    ensures i <= |u| && StartPrefix(u[i..]) == SearchFrom(u, atLineStart)
    ensures (i == 0 && atLineStart) || (0 < i && u[i - 1] == '\n')
    decreases |u|
  {
    if atLineStart && StartPrefix(u).Some? {
      i := 0;
      assert u[0..] == u;
    } else {
      assert u != [];
      assert SearchFrom(u, atLineStart) == SearchFrom(u[1..], u[0] == '\n');
      var j := SearchFromFound(u[1..], u[0] == '\n');
      i := j + 1;
      assert u[1..][j..] == u[i..];
      if j > 0 {
        assert u[1..][j - 1] == u[i - 1];
      }
    }
  }

  /** `str(v)` followed by a non-digit is read back as `v`. */
  lemma IntPrefixOf(v: int, rest: string)
    requires rest == [] || !IsDigit(rest[0])
    ensures IntPrefix(IntToString(v) + rest) == Some((v, |IntToString(v)|))
  {
    if v < 0 {
      NegativePrefixOf(v, rest);
    } else {
      NatToStringValue(v);
      DigitsPrefix(NatToString(v), rest);
    }
  }

  lemma NegativePrefixOf(v: int, rest: string)
    requires v < 0
    requires rest == [] || !IsDigit(rest[0])
    ensures IntPrefix(IntToString(v) + rest) == Some((v, |IntToString(v)|))
  {
    var d := NatToString(-v);
    var t := IntToString(v);
    assert t == "-" + d;
    NatToStringValue(-v);
    assert t + rest == "-" + (d + rest);
    MinusDigitsPrefix(d, rest);
    var r := IntPrefix(t + rest);
    assert r.value.0 == v;
    assert r.value.1 == |t|;
  }

  lemma DigitsPrefix(d: string, rest: string)
    requires AllDigits(d) && d != []
    requires rest == [] || !IsDigit(rest[0])
    ensures IntPrefix(d + rest) == Some((DigitsValue(d), |d|))
  {
    DigitsPrefixOf(d, rest);
  }

  lemma MinusDigitsPrefix(d: string, rest: string)
    requires AllDigits(d) && d != []
    requires rest == [] || !IsDigit(rest[0])
    ensures IntPrefix("-" + (d + rest)).Some?
    ensures IntPrefix("-" + (d + rest)).value.0 == -(DigitsValue(d) as int)
    ensures IntPrefix("-" + (d + rest)).value.1 == |d| + 1
  {
    var body := d + rest;
    var u := "-" + body;
    assert u[1..] == body;
    assert DigitRun(body) == |d| && body[..|d|] == d by { DigitsPrefixOf(d, rest); }
    IntPrefixMinus(u);
  }

  lemma IntPrefixMinus(u: string)
    requires u != [] && u[0] == '-' && DigitRun(u[1..]) > 0
    ensures IntPrefix(u).Some?
    ensures IntPrefix(u).value.0 == -(DigitsValue(u[1..][..DigitRun(u[1..])]) as int)
    ensures IntPrefix(u).value.1 == DigitRun(u[1..]) + 1
  {
  }

  lemma DigitsPrefixOf(d: string, rest: string)
    requires AllDigits(d) && d != []
    requires rest == [] || !IsDigit(rest[0])
    ensures DigitRun(d + rest) == |d| && (d + rest)[..|d|] == d
    ensures d[0] != '-'
  {
    DigitRunOf(d, rest);
  }

  lemma {:induction false} DigitRunOf(d: string, rest: string)
    requires AllDigits(d)
    requires rest == [] || !IsDigit(rest[0])
    ensures DigitRun(d + rest) == |d|
    decreases |d|
  {
    if d == [] {
      assert d + rest == rest;
    } else {
      assert (d + rest)[1..] == d[1..] + rest;
      DigitRunOf(d[1..], rest);
    }
  }

  lemma SpaceRunNone(u: string)
    requires u != [] && (u[0] == '-' || IsDigit(u[0]))
    ensures SpaceRun(u) == 0
  {
  }

  lemma SpaceRunOne(u: string)
    requires u != [] && (u[0] == '-' || IsDigit(u[0]))
    ensures SpaceRun(" " + u) == 1
  {
    assert (" " + u)[1..] == u;
    SpaceRunNone(u);
  }

  lemma IntToStringHead(v: int)
    ensures IntToString(v)[0] == '-' || IsDigit(IntToString(v)[0])
  {
  }

  lemma SecondIntOf(x: int, y: int, rest: string)
    requires rest == [] || !IsDigit(rest[0])
    ensures SecondInt(x, " " + IntToString(y) + rest) == Some((x, y))
  {
    var u := " " + IntToString(y) + rest;
    IntToStringHead(y);
    assert u == " " + (IntToString(y) + rest);
    SpaceRunOne(IntToString(y) + rest);
    assert u[1..] == IntToString(y) + rest;
    IntPrefixOf(y, rest);
  }

  lemma TwoIntsOf(x: int, y: int, rest: string)
    requires rest == [] || !IsDigit(rest[0])
    ensures TwoInts(IntToString(x) + " " + IntToString(y) + rest) == Some((x, y))
  {
    var sx := IntToString(x);
    var tail := " " + IntToString(y) + rest;
    var u := IntToString(x) + " " + IntToString(y) + rest;
    assert u == sx + tail;
    IntToStringHead(x);
    SpaceRunNone(u);
    assert u[0..] == u;
    IntPrefixOf(x, tail);
    assert u[|sx|..] == tail;
    SecondIntOf(x, y, rest);
  }

  /** `start=` is taken, and the numbers are read from what follows it. */
  lemma StartKeyword(body: string)
    ensures StartPrefix("start=" + body) == TwoInts(body)
  {
    var u := "start=" + body;
    assert u[..5] == "start";
    var v := u[5..];
    assert v == "=" + body;
    assert v[0] == '=' && !IsSpace(v[0]);
    assert v[1..] == body;
  }

  /** The `start=` line a double click writes matches with exactly its two numbers. */
  lemma StartLineMatches(x: int, y: int, rest: string)
    requires rest == [] || !IsDigit(rest[0])
    ensures StartPrefix("start=" + IntToString(x) + " " + IntToString(y) + rest) == Some((x, y))
  {
    var sx := IntToString(x);
    var sy := IntToString(y);
    var body := sx + " " + sy + rest;
    assert "start=" + sx + " " + sy + rest == "start=" + body;
    StartKeyword(body);
    TwoIntsOf(x, y, rest);
  }

  /** Only a line starting with `s` can hold the match. */
  lemma StartPrefixNeedsS(u: string)
    requires u == [] || u[0] != 's'
    ensures StartPrefix(u) == None
  {
    if |u| >= 5 {
      assert u[..5][0] == u[0];
    }
  }

  /** A line that does not start with `s` cannot hold the match; the search goes on after it. */
  lemma {:induction false} SkipLine(line: string, rest: string, atLineStart: bool)
    requires '\n' !in line
    requires atLineStart && line != [] ==> line[0] != 's'
    ensures SearchFrom(line + "\n" + rest, atLineStart) == SearchFrom(rest, true)
    decreases |line|
  {
    var u := line + "\n" + rest;
    if atLineStart {
      StartPrefixNeedsS(u);
    }
    if line == [] {
      assert u[1..] == rest;
    } else {
      assert u[0] == line[0] && u[1..] == line[1..] + "\n" + rest;
      SkipLine(line[1..], rest, false);
    }
  }

  /** The search passes over three lines that do not start with `s` to the fourth. */
  lemma SearchPastLines(l1: string, l2: string, l3: string, l4: string)
    requires '\n' !in l1 && '\n' !in l2 && '\n' !in l3
    requires l1 != [] && l1[0] != 's' && l2 != [] && l2[0] != 's' && l3 != [] && l3[0] != 's'
    ensures StartSearch(Terminated([l1, l2, l3, l4])) == SearchFrom(l4 + "\n", true)
  {
    assert [l1, l2, l3, l4][1..] == [l2, l3, l4] && [l2, l3, l4][1..] == [l3, l4] && [l3, l4][1..] == [l4];
    assert Terminated([l4]) == l4 + "\n";
    SkipLine(l1, Terminated([l2, l3, l4]), true);
    SkipLine(l2, Terminated([l3, l4]), true);
    SkipLine(l3, Terminated([l4]), true);
  }

  /**
   * The point a double click on the map writes into `2xlp.txt` is the point
   * the bar reads from it.
   */
  lemma TwoClickStart(stamp: string, x: int, y: int)
    requires stamp != [] && '\n' !in stamp
    ensures StartSearch(SensorContent(DoubleClickFields(stamp, x, y))) == Some((x, y))
  {
    var l1 := "data=" + stamp;
    var l4 := "start=" + IntToString(x) + " " + IntToString(y);
    DoubleClickContent(stamp, x, y);
    assert l1[0] == 'd';
    assert '\n' !in l1;
    SearchPastLines(l1, "event=2xlp", "button=lp", l4);
    StartLineMatches(x, y, "\n");
  }

  // ---------------------------------------------------------------------------
  // next_obj_name
  // ---------------------------------------------------------------------------

  const ObjPrefix: string := "dodany obiekt "

  /** The name of the `n`th added object. */
  function ObjName(n: nat): string {
    ObjPrefix + NatToString(n)
  }

  /** `re.match(r"^dodany obiekt (\d+)$", name)` and `int()` of the number (`$` also matches before a final `\n`). */
  function ObjNumber(name: string): Option<nat> {
    if !StartsWith(name, ObjPrefix) then None
    else
      var rest := name[|ObjPrefix|..];
      var digits := if rest != [] && rest[|rest| - 1] == '\n' then rest[..|rest| - 1] else rest;
      if digits != [] && AllDigits(digits) then Some(DigitsValue(digits)) else None
  }

  /** The name given to object `n` is read back as number `n`. */
  lemma ObjNumberOfName(n: nat)
    ensures ObjNumber(ObjName(n)) == Some(n)
  {
    var name := ObjName(n);
    assert name[..|ObjPrefix|] == ObjPrefix;
    assert name[|ObjPrefix|..] == NatToString(n);
    NatToStringValue(n);
  }

  /**
   * What one entry adds to the maximum: the number of a folder named `objN`,
   * or 0 for anything else (which never raises a maximum that starts at 0).
   */
  function DirNumber(t: Tree, p: Path): nat {
    if IsDir(t, p) then
      match ObjNumber(Name(p))
      case Some(n) => n
      case None => 0
    else 0
  }

  /** The largest object number among the folders `ps`, 0 when there is none. */
  function MaxNumber(t: Tree, ps: seq<Path>): nat {
    if ps == [] then 0
    else
      var m := MaxNumber(t, ps[..|ps| - 1]);
      var d := DirNumber(t, ps[|ps| - 1]);
      if d > m then d else m
  }

  /** No object folder among `ps` has a larger number than the maximum. */
  lemma {:induction false} MaxNumberBound(t: Tree, ps: seq<Path>, i: nat)
    requires i < |ps|
    ensures DirNumber(t, ps[i]) <= MaxNumber(t, ps)
  {
    if i < |ps| - 1 {
      MaxNumberBound(t, ps[..|ps| - 1], i);
    }
  }

  /** The maximum is 0 or the number of one of the folders. */
  lemma {:induction false} MaxNumberAttained(t: Tree, ps: seq<Path>)
    ensures MaxNumber(t, ps) == 0 || exists i :: 0 <= i < |ps| && DirNumber(t, ps[i]) == MaxNumber(t, ps)
  {
    if ps != [] && MaxNumber(t, ps) != DirNumber(t, ps[|ps| - 1]) {
      var init := ps[..|ps| - 1];
      MaxNumberAttained(t, init);
      if MaxNumber(t, init) != 0 {
        var i :| 0 <= i < |init| && DirNumber(t, init[i]) == MaxNumber(t, init);
        assert ps[i] == init[i];
      }
    }
  }

  /** The name `next_obj_name()` gives for the folders now in the object folder. */
  function NextName(t: Tree): string {
    ObjName(MaxNumber(t, Children(t, Matching.ObjectsDir)) + 1)
  }

  /** The next name is not the name of any folder already in the object folder. */
  lemma NextNameFresh(t: Tree, p: Path)
    requires p in Children(t, Matching.ObjectsDir) && IsDir(t, p)
    ensures Name(p) != NextName(t)
  {
    var ps := Children(t, Matching.ObjectsDir);
    var i :| 0 <= i < |ps| && ps[i] == p;
    MaxNumberBound(t, ps, i);
    ObjNumberOfName(MaxNumber(t, ps) + 1);
  }

  /** The loop of `next_obj_name()` over the object folder (which exists by then). */
  method NextObjName(t: Tree) returns (name: string)
    ensures name == NextName(t)
  {
    var ps := Children(t, Matching.ObjectsDir);
    var maxN: nat := 0;
    var i := 0;
    while i < |ps|
      invariant 0 <= i <= |ps|
      invariant maxN == MaxNumber(t, ps[..i])
    {
      var n := EntryNumber(t, ps[i]);
      MaxNumberStep(t, ps, i);
      if n > maxN {
        maxN := n;
      }
      i := i + 1;
    }
    assert ps[..i] == ps;
    name := ObjName(maxN + 1);
  }

  /** The loop body of `next_obj_name()` for one entry: a folder named `objN` gives N, anything else 0. */
  method EntryNumber(t: Tree, p: Path) returns (n: nat)
    ensures n == DirNumber(t, p)
  {
    n := 0;
    if IsDir(t, p) {
      var m := ObjNumber(Name(p));
      if m.Some? {
        n := m.value;
      }
    }
  }

  lemma MaxNumberStep(t: Tree, ps: seq<Path>, i: nat)
    requires i < |ps|
    ensures MaxNumber(t, ps[..i + 1])
         == if DirNumber(t, ps[i]) > MaxNumber(t, ps[..i]) then DirNumber(t, ps[i]) else MaxNumber(t, ps[..i])
  {
    assert ps[..i + 1][..i] == ps[..i];
  }

  // ---------------------------------------------------------------------------
  // write_xy
  // ---------------------------------------------------------------------------

  /** `f"xy={x} {y}"`. */
  function XYLine(x: int, y: int): string {
    "xy=" + IntToString(x) + " " + IntToString(y)
  }

  /** `re.sub(r"^xy=.*$", line, content, flags=re.M)`: every line starting with `xy=` becomes `line`. */
  function ReplaceXY(parts: seq<string>, line: string): (r: seq<string>)
    ensures |r| == |parts|
  {
    seq(|parts|, i requires 0 <= i < |parts| => if StartsWith(parts[i], "xy=") then line else parts[i])
  }

  /** The content before `strip()`: the `xy=` lines replaced when `xy=` occurs, else the line appended. */
  function XYUpdated(c: string, x: int, y: int): string {
    if Contains(c, "xy=") then Join(ReplaceXY(Split(c, '\n'), XYLine(x, y)), "\n")
    else c + "\n" + XYLine(x, y) + "\n"
  }

  /** The text `write_xy` leaves in the data file whose content was `c`. */
  function WriteXYText(c: string, x: int, y: int): string {
    Strip(XYUpdated(c, x, y)) + "\n"
  }

  lemma XYLineShape(x: int, y: int)
    ensures '\n' !in XYLine(x, y)
    ensures StartsWith(XYLine(x, y), "xy=")
    ensures !IsSpace(XYLine(x, y)[0]) && !IsSpace(XYLine(x, y)[|XYLine(x, y)| - 1])
  {
    IntToStringShape(x);
    IntToStringShape(y);
    IntToStringLast(y);
    XYTextShape(IntToString(x), IntToString(y));
  }

  lemma XYTextShape(sx: string, sy: string)
    requires NoLineBreak(sx) && NoLineBreak(sy) && sy != [] && IsDigit(sy[|sy| - 1])
    ensures var line := "xy=" + sx + " " + sy;
            && '\n' !in line && StartsWith(line, "xy=")
            && !IsSpace(line[0]) && !IsSpace(line[|line| - 1])
  {
    var line := "xy=" + sx + " " + sy;
    assert line[..3] == "xy=";
    assert line[|line| - 1] == sy[|sy| - 1];
    forall i | 0 <= i < |line| ensures line[i] != '\n' {
      if 3 <= i < 3 + |sx| {
        assert line[i] == sx[i - 3];
      } else if 3 + |sx| + 1 <= i {
        assert line[i] == sy[i - 3 - |sx| - 1];
      }
    }
  }

  /**
   * When the content mentions `xy=`, its `\n`-separated lines stay as they
   * were except that each one starting with `xy=` now holds the new point.
   */
  lemma XYReplaced(c: string, x: int, y: int)
    requires Contains(c, "xy=")
    ensures var before := Split(c, '\n');
            var after := Split(XYUpdated(c, x, y), '\n');
            |after| == |before|
            && (forall i :: 0 <= i < |before| && StartsWith(before[i], "xy=") ==> after[i] == XYLine(x, y))
            && (forall i :: 0 <= i < |before| && !StartsWith(before[i], "xy=") ==> after[i] == before[i])
  {
    XYLineShape(x, y);
    var parts := ReplaceXY(Split(c, '\n'), XYLine(x, y));
    SplitJoin(parts, '\n');
  }

  /** When no line starts with `xy=` (though `xy=` occurs inside one), the content is only stripped. */
  lemma XYInsideOnly(c: string, x: int, y: int)
    requires Contains(c, "xy=")
    requires forall i :: 0 <= i < |Split(c, '\n')| ==> !StartsWith(Split(c, '\n')[i], "xy=")
    ensures WriteXYText(c, x, y) == Strip(c) + "\n"
  {
    assert ReplaceXY(Split(c, '\n'), XYLine(x, y)) == Split(c, '\n');
    JoinSplit(c, '\n');
  }

  lemma {:induction false} TrimLeftAppend(a: string, b: string)
    requires b != [] && !IsSpace(b[0])
    ensures TrimLeft(a + b) == TrimLeft(a) + b
    decreases |a|
  {
    if a == [] {
      assert a + b == b;
    } else {
      assert (a + b)[0] == a[0] && (a + b)[1..] == a[1..] + b;
      TrimLeftAppend(a[1..], b);
    }
  }

  /**
   * When the content does not mention `xy=`, the point is added as the last
   * line; only leading blanks of the old content are dropped.
   */
  lemma XYAppended(c: string, x: int, y: int)
    requires !Contains(c, "xy=")
    ensures WriteXYText(c, x, y) == TrimLeft(c + "\n") + XYLine(x, y) + "\n"
  {
    var line := XYLine(x, y);
    XYLineShape(x, y);
    var s := c + "\n" + line + "\n";
    assert XYUpdated(c, x, y) == s;
    assert s == (c + "\n") + (line + "\n");
    TrimLeftAppend(c + "\n", line + "\n");
    var l := TrimLeft(c + "\n") + line;
    ConcatLine(TrimLeft(c + "\n"), line);
    TrimRightLine(l);
  }

  lemma ConcatLine(p: string, line: string)
    requires line != []
    ensures p + (line + "\n") == (p + line) + "\n"
    ensures (p + line)[|p + line| - 1] == line[|line| - 1]
  {
  }

  lemma TrimRightLine(l: string)
    requires l != [] && !IsSpace(l[|l| - 1])
    ensures TrimRight(l + "\n") == l
  {
    assert (l + "\n")[..|l|] == l;
  }

  // ---------------------------------------------------------------------------
  // Adding an object: shutil.copytree of the template, then write_xy
  // ---------------------------------------------------------------------------

  /** The names `ignore_patterns("__pycache__", ".git", ".idea")` leaves out of a copy. */
  predicate Ignored(name: string) {
    name == "__pycache__" || name == ".git" || name == ".idea"
  }

  /** Some component of a path below the template is left out (and so is all below it). */
  predicate AnyIgnored(rel: Path) {
    exists k :: 0 <= k < |rel| && Ignored(rel[k])
  }

  /** Is `p` strictly below `src` and copied? */
  predicate Copied(p: Path, src: Path) {
    Under(p, src) && |p| > |src| && !AnyIgnored(p[|src|..])
  }

  /** The entries `copytree(src, dst)` writes below `dst`, one for each copied entry below `src`. */
  function Copies(t: Tree, src: Path, dst: Path): (r: seq<Entry>)
    ensures forall k :: 0 <= k < |r| ==> |r[k].path| > |dst| && r[k].path[..|dst|] == dst
  {
    if t == [] then []
    else
      var rest := Copies(t[1..], src, dst);
      if Copied(t[0].path, src) then [Entry(dst + t[0].path[|src|..], t[0].node)] + rest else rest
  }

  /** Every entry written comes from an entry below `src`, at the same place below `dst`. */
  lemma {:induction false} CopiesFrom(t: Tree, src: Path, dst: Path, k: nat) returns (j: nat)
    requires k < |Copies(t, src, dst)|
    ensures j < |t| && Copied(t[j].path, src)
    ensures Copies(t, src, dst)[k] == Entry(dst + t[j].path[|src|..], t[j].node)
  {
    var rest := Copies(t[1..], src, dst);
    if Copied(t[0].path, src) && k == 0 {
      j := 0;
    } else {
      var k' := if Copied(t[0].path, src) then k - 1 else k;
      var j' := CopiesFrom(t[1..], src, dst, k');
      j := j' + 1;
    }
  }

  /** Every copied entry below `src` is written. */
  lemma {:induction false} CopiesHas(t: Tree, src: Path, dst: Path, j: nat)
    requires j < |t| && Copied(t[j].path, src)
    ensures Entry(dst + t[j].path[|src|..], t[j].node) in Copies(t, src, dst)
  {
    if j > 0 {
      CopiesHas(t[1..], src, dst, j - 1);
    }
  }

  lemma SamePlaceBelow(p: Path, q: Path, src: Path, dst: Path)
    requires Under(p, src) && Under(q, src)
    requires dst + p[|src|..] == dst + q[|src|..]
    ensures p == q
  {
    assert p[|src|..] == (dst + p[|src|..])[|dst|..];
    assert p == p[..|src|] + p[|src|..] && q == q[..|src|] + q[|src|..];
  }

  /** A tree without repeated paths is copied without writing a path twice. */
  lemma {:induction false} CopiesDistinct(t: Tree, src: Path, dst: Path)
    requires Distinct(t)
    ensures PathsDistinct(Copies(t, src, dst))
  {
    if t != [] {
      CopiesDistinct(t[1..], src, dst);
      var rest := Copies(t[1..], src, dst);
      if Copied(t[0].path, src) {
        var r := Copies(t, src, dst);
        var h := Entry(dst + t[0].path[|src|..], t[0].node);
        assert r == [h] + rest;
        forall k | 0 <= k < |rest| ensures rest[k].path != h.path {
          HeadCopyFresh(t, src, dst, k);
        }
        forall a, b | 0 <= a < b < |r| ensures r[a].path != r[b].path {
          if a == 0 {
            assert r[b] == rest[b - 1];
          } else {
            assert r[a] == rest[a - 1] && r[b] == rest[b - 1];
          }
        }
      }
    }
  }

  lemma HeadCopyFresh(t: Tree, src: Path, dst: Path, k: nat)
    requires Distinct(t) && t != [] && Copied(t[0].path, src)
    requires k < |Copies(t[1..], src, dst)|
    ensures Copies(t[1..], src, dst)[k].path != dst + t[0].path[|src|..]
  {
    var j := CopiesFrom(t[1..], src, dst, k);
    if Copies(t[1..], src, dst)[k].path == dst + t[0].path[|src|..] {
      SamePlaceBelow(t[0].path, t[1..][j].path, src, dst);
    }
  }

  /** `shutil.copytree(src, dst, ignore=IGNORES)`: `dst` becomes a directory holding a copy of what is below `src`. */
  function CopyTree(t: Tree, src: Path, dst: Path): Tree {
    PutAll(Put(t, dst, Dir), Copies(t, src, dst))
  }

  /** After the copy, each copied path below `dst` holds what the same path below `src` held. */
  lemma CopyTreeRead(t: Tree, src: Path, dst: Path, e: Entry)
    requires Distinct(t) && e in t && Copied(e.path, src)
    ensures NodeAt(CopyTree(t, src, dst), dst + e.path[|src|..]) == Some(e.node)
  {
    var j :| 0 <= j < |t| && t[j] == e;
    CopiesHas(t, src, dst, j);
    CopiesDistinct(t, src, dst);
    var r := Copies(t, src, dst);
    var k :| 0 <= k < |r| && r[k] == Entry(dst + e.path[|src|..], e.node);
    PutAllRead(Put(t, dst, Dir), r, k);
  }

  /** Outside `dst` the copy changes nothing, and `dst` itself is a directory. */
  lemma CopyTreeElsewhere(t: Tree, src: Path, dst: Path, q: Path)
    requires !(|q| > |dst| && q[..|dst|] == dst)
    ensures NodeAt(CopyTree(t, src, dst), q) == if q == dst then Some(Dir) else NodeAt(t, q)
  {
    PutAllElsewhere(Put(t, dst, Dir), Copies(t, src, dst), q);
    PutRead(t, dst, Dir, q);
  }

  /** The tree with the object folder in place (`OBIEKTY_DIR.mkdir(exist_ok=True)`). */
  function WithObjectsDir(t: Tree): Tree {
    if Exists(t, Matching.ObjectsDir) then t else Put(t, Matching.ObjectsDir, Dir)
  }

  /** Where the next object goes. */
  function NewObject(t: Tree): Path {
    Matching.ObjectsDir + [NextName(WithObjectsDir(t))]
  }

  /**
   * A new object at point `c` made from the folder `template`: the tree after
   * it, and whether every step succeeded (a step that raises stops there,
   * keeping the changes made before it).
   */
  function AddObject(t: Tree, template: Path, c: (int, int), now: int): (Tree, bool) {
    if Exists(t, Matching.ObjectsDir) && !IsDir(t, Matching.ObjectsDir) then (t, false)
    else
      var t1 := WithObjectsDir(t);
      var dest := NewObject(t);
      if Exists(t1, dest) || !IsDir(t1, template) then (t1, false)
      else
        var t2 := CopyTree(t1, template, dest);
        var data := dest + [Repository.DataName];
        if IsDir(t2, data) then (t2, false)
        else
          var content := if IsFile(t2, data) then ReadText(t2, data).value else "";
          (Put(t2, data, File(WriteXYText(content, c.0, c.1), now)), true)
  }

  lemma DataNameCopied(template: Path)
    ensures Copied(template + [Repository.DataName], template)
    ensures (template + [Repository.DataName])[|template|..] == [Repository.DataName]
  {
    var p := template + [Repository.DataName];
    assert p[|template|..] == [Repository.DataName];
    assert p[..|template|] == template;
  }

  /**
   * A new object made from a template folder is a new folder in the object
   * folder: its data file is the template's with the point set (or only the
   * point, when the template has none), every other copied file is the
   * template's, and nothing outside it changes but the object folder being
   * created.
   */
  lemma AddedObject(t: Tree, template: Path, c: (int, int), now: int)
    requires Distinct(t) && Rooted(t) && ChildOf(template, Base)
    requires AddObject(t, template, c, now).1
    ensures var r := AddObject(t, template, c, now).0;
            var dest := NewObject(t);
            && NodeAt(r, dest) == Some(Dir)
            && ReadText(r, dest + [Repository.DataName])
               == Some(WriteXYText(XYContent(t, template + [Repository.DataName]), c.0, c.1))
            && (forall e :: e in t && Copied(e.path, template) && e.path != template + [Repository.DataName]
                  ==> NodeAt(r, dest + e.path[|template|..]) == Some(e.node))
            && (forall q :: !Under(q, dest) && q != Matching.ObjectsDir ==> NodeAt(r, q) == NodeAt(t, q))
  {
    AddedData(t, template, c, now);
    forall e | e in t && Copied(e.path, template) && e.path != template + [Repository.DataName]
      ensures NodeAt(AddObject(t, template, c, now).0, NewObject(t) + e.path[|template|..]) == Some(e.node)
    {
      CopiedInto(t, template, c, now, e);
    }
    forall q | !Under(q, NewObject(t)) && q != Matching.ObjectsDir
      ensures NodeAt(AddObject(t, template, c, now).0, q) == NodeAt(t, q)
    {
      AddedElsewhere(t, template, c, now, q);
    }
  }

  lemma WithObjectsDirDistinct(t: Tree)
    requires Distinct(t)
    ensures Distinct(WithObjectsDir(t))
    ensures forall e :: e in t ==> e in WithObjectsDir(t)
  {
    if !Exists(t, Matching.ObjectsDir) {
      PutDistinct(t, Matching.ObjectsDir, Dir);
      assert WithObjectsDir(t) == t + [Entry(Matching.ObjectsDir, Dir)];
    }
  }

  /** A copy into a folder that holds no `name` yet leaves there what the template holds under `name`. */
  lemma CopyTreeData(t: Tree, template: Path, dest: Path, name: string)
    requires Distinct(t) && !Exists(t, dest + [name]) && !Ignored(name)
    ensures NodeAt(CopyTree(t, template, dest), dest + [name]) == NodeAt(t, template + [name])
  {
    var src := template + [name];
    var data := dest + [name];
    assert src[|template|..] == [name] && src[..|template|] == template;
    assert Copied(src, template);
    var es := Copies(t, template, dest);
    if Exists(t, src) {
      EntryAt(t, src);
      CopyTreeRead(t, template, dest, Entry(src, NodeAt(t, src).value));
    } else {
      forall k | 0 <= k < |es| ensures es[k].path != data {
        var j := CopiesFrom(t, template, dest, k);
        if es[k].path == data {
          SamePlaceBelow(t[j].path, src, template, dest);
        }
      }
      PutAllElsewhere(Put(t, dest, Dir), es, data);
      PutRead(t, dest, Dir, data);
    }
  }

  /** The object's data file: the template's with the point set, or only the point when the template has no data file. */
  lemma AddedData(t: Tree, template: Path, c: (int, int), now: int)
    requires Distinct(t) && Rooted(t) && ChildOf(template, Base)
    requires AddObject(t, template, c, now).1
    ensures var r := AddObject(t, template, c, now).0;
            && NodeAt(r, NewObject(t)) == Some(Dir)
            && ReadText(r, NewObject(t) + [Repository.DataName])
               == Some(WriteXYText(XYContent(t, template + [Repository.DataName]), c.0, c.1))
  {
    var t1 := WithObjectsDir(t);
    var dest := NewObject(t);
    var data := dest + [Repository.DataName];
    var src := template + [Repository.DataName];
    var t2 := CopyTree(t1, template, dest);
    WithObjectsDirDistinct(t);
    PutRead(t, Matching.ObjectsDir, Dir, src);
    PutRead(t, Matching.ObjectsDir, Dir, dest);
    PutRead(t, Matching.ObjectsDir, Dir, data);
    RootedParent(t, data);
    assert data[..|data| - 1] == dest;
    NodeAtKinds(t, dest);
    NodeAtKinds(t1, dest);
    NodeAtKinds(t, data);
    NodeAtKinds(t1, data);
    CopyTreeData(t1, template, dest, Repository.DataName);
    NodeAtKinds(t2, data);
    NodeAtKinds(t, src);
    var node := File(WriteXYText(XYContent(t, src), c.0, c.1), now);
    assert XYContent(t2, data) == XYContent(t, src);
    assert AddObject(t, template, c, now).0 == Put(t2, data, node);
    PutRead(t2, data, node, data);
    PutRead(t2, data, node, dest);
    CopyTreeElsewhere(t1, template, dest, dest);
  }

  lemma AddedElsewhere(t: Tree, template: Path, c: (int, int), now: int, q: Path)
    requires AddObject(t, template, c, now).1
    requires !Under(q, NewObject(t)) && q != Matching.ObjectsDir
    ensures NodeAt(AddObject(t, template, c, now).0, q) == NodeAt(t, q)
  {
    var t1 := WithObjectsDir(t);
    var dest := NewObject(t);
    var data := dest + [Repository.DataName];
    var t2 := CopyTree(t1, template, dest);
    var content := if IsFile(t2, data) then ReadText(t2, data).value else "";
    assert AddObject(t, template, c, now).0 == Put(t2, data, File(WriteXYText(content, c.0, c.1), now));
    PutRead(t2, data, File(WriteXYText(content, c.0, c.1), now), q);
    CopyTreeElsewhere(t1, template, dest, q);
    PutRead(t, Matching.ObjectsDir, Dir, q);
  }

  lemma CopiedInto(t: Tree, template: Path, c: (int, int), now: int, e: Entry)
    requires Distinct(t) && ChildOf(template, Base)
    requires AddObject(t, template, c, now).1
    requires e in t && Copied(e.path, template) && e.path != template + [Repository.DataName]
    ensures NodeAt(AddObject(t, template, c, now).0, NewObject(t) + e.path[|template|..]) == Some(e.node)
  {
    var t1 := WithObjectsDir(t);
    var dest := NewObject(t);
    var data := dest + [Repository.DataName];
    var t2 := CopyTree(t1, template, dest);
    var r := AddObject(t, template, c, now).0;
    WithObjectsDirDistinct(t);
    CopyTreeRead(t1, template, dest, e);
    var q := dest + e.path[|template|..];
    if q == data {
      DataNameCopied(template);
      SamePlaceBelow(e.path, template + [Repository.DataName], template, dest);
    }
    var content := if IsFile(t2, data) then ReadText(t2, data).value else "";
    assert r == Put(t2, data, File(WriteXYText(content, c.0, c.1), now));
    PutRead(t2, data, File(WriteXYText(content, c.0, c.1), now), q);
  }

  // ---------------------------------------------------------------------------
  // Slots: scan_folders and the folder without a slot
  // ---------------------------------------------------------------------------

  /** `int(path.read_text().strip())` of the slot file in `f`, when it reads and parses. */
  function SlotOf(t: Tree, f: Path): Option<int> {
    match ReadText(t, f + [SlotName])
    case None => None
    case Some(text) => ParseInt(Strip(text))
  }

  /** `not name.startswith((".", "__"))`. */
  predicate Visible(name: string) {
    !StartsWith(name, ".") && !StartsWith(name, "__")
  }

  /** A folder the bar may take as a template. */
  predicate Template(t: Tree, f: Path) {
    IsDir(t, f) && Visible(Name(f))
  }

  /** The slots bound by the folders `fs`, met in order (a later folder takes a slot from an earlier one). */
  function SlotMap(t: Tree, fs: seq<Path>): map<int, Path> {
    if fs == [] then map[]
    else
      var m := SlotMap(t, fs[..|fs| - 1]);
      var f := fs[|fs| - 1];
      match SlotOf(t, f)
      case Some(s) => if Template(t, f) then m[s := f] else m
      case None => m
  }

  /** `scan_folders()`: slot number to template folder. */
  function SlotFolders(t: Tree): map<int, Path> {
    SlotMap(t, Children(t, Base))
  }

  /** Each bound folder is one of `fs`, a template, and its slot file holds the slot. */
  lemma {:induction false} SlotMapSound(t: Tree, fs: seq<Path>)
    ensures forall s :: s in SlotMap(t, fs) ==>
              SlotMap(t, fs)[s] in fs && Template(t, SlotMap(t, fs)[s]) && SlotOf(t, SlotMap(t, fs)[s]) == Some(s)
  {
    if fs != [] {
      SlotMapSound(t, fs[..|fs| - 1]);
      assert forall f :: f in fs[..|fs| - 1] ==> f in fs;
    }
  }

  /** A template whose slot file holds `s`, with no later template claiming `s`, is the folder bound to `s`. */
  lemma {:induction false} SlotMapLast(t: Tree, fs: seq<Path>, i: nat, s: int)
    requires i < |fs| && Template(t, fs[i]) && SlotOf(t, fs[i]) == Some(s)
    requires forall j :: i < j < |fs| ==> !(Template(t, fs[j]) && SlotOf(t, fs[j]) == Some(s))
    ensures s in SlotMap(t, fs) && SlotMap(t, fs)[s] == fs[i]
  {
    if i < |fs| - 1 {
      var init := fs[..|fs| - 1];
      SlotMapLast(t, init, i, s);
    }
  }

  /** Every template whose slot file parses binds its slot to some folder. */
  lemma {:induction false} SlotMapHas(t: Tree, fs: seq<Path>, i: nat)
    requires i < |fs| && Template(t, fs[i]) && SlotOf(t, fs[i]).Some?
    ensures SlotOf(t, fs[i]).value in SlotMap(t, fs)
  {
    var init := fs[..|fs| - 1];
    if i < |fs| - 1 {
      assert init[i] == fs[i];
      SlotMapHas(t, init, i);
      SlotMapGrows(t, fs);
    } else {
      SlotMapLastBinds(t, fs);
    }
  }

  /** The last folder met, a template with a readable slot file, binds its slot. */
  lemma SlotMapLastBinds(t: Tree, fs: seq<Path>)
    requires fs != [] && Template(t, fs[|fs| - 1]) && SlotOf(t, fs[|fs| - 1]).Some?
    ensures SlotOf(t, fs[|fs| - 1]).value in SlotMap(t, fs)
  {
  }

  /** A slot bound by the earlier folders stays bound when one more folder is met. */
  lemma SlotMapGrows(t: Tree, fs: seq<Path>)
    requires fs != []
    ensures forall s :: s in SlotMap(t, fs[..|fs| - 1]) ==> s in SlotMap(t, fs)
  {
  }

  /** Every folder bound to a slot is a folder of the bar. */
  predicate InBase(m: map<int, Path>) {
    forall s :: s in m ==> ChildOf(m[s], Base)
  }

  lemma SlotFoldersInBase(t: Tree)
    ensures InBase(SlotFolders(t))
  {
    SlotMapSound(t, Children(t, Base));
  }

  /** The first template among `fs` without a slot file. */
  function Unassigned(t: Tree, fs: seq<Path>): (r: Option<Path>)
    ensures r.Some? ==> r.value in fs && Template(t, r.value) && !Exists(t, r.value + [SlotName])
    ensures r.None? ==> forall i :: 0 <= i < |fs| ==> !(Template(t, fs[i]) && !Exists(t, fs[i] + [SlotName]))
  {
    if fs == [] then None
    else if Template(t, fs[0]) && !Exists(t, fs[0] + [SlotName]) then Some(fs[0])
    else Unassigned(t, fs[1..])
  }

  // ---------------------------------------------------------------------------
  // slot.txt and stan.txt
  // ---------------------------------------------------------------------------

  /**
   * `read_slot()`: the tree after it and the slot read. A slot file that is
   * missing or does not parse is replaced by `0`; None when that write raises
   * (the slot file is a directory).
   */
  function SlotRead(t: Tree, now: int): Option<(Tree, int)> {
    match SlotOf(t, Base)
    case Some(n) => Some((t, n))
    case None => if IsDir(t, SlotPath) then None else Some((Put(t, SlotPath, File("0", now)), 0))
  }

  lemma IntToStringStripped(i: int)
    ensures Strip(IntToString(i)) == IntToString(i)
  {
    var s := IntToString(i);
    IntToStringHead(i);
    assert IsDigit(s[|s| - 1]);
    StripOfStripped(s);
  }

  /** Writing the slot number to the slot file makes it what the slot file reads as. */
  lemma WrittenSlotReads(t: Tree, i: int, now: int)
    ensures SlotOf(Put(t, SlotPath, File(IntToString(i), now)), Base) == Some(i)
  {
    PutRead(t, SlotPath, File(IntToString(i), now), SlotPath);
    IntToStringStripped(i);
    IntToStringParseInt(i);
  }

  /** After `read_slot()` the slot file reads as the slot it returned. */
  lemma SlotReadSettles(t: Tree, now: int)
    requires SlotRead(t, now).Some?
    ensures SlotOf(SlotRead(t, now).value.0, Base) == Some(SlotRead(t, now).value.1)
  {
    if SlotOf(t, Base).None? {
      WrittenSlotReads(t, 0, now);
      assert IntToString(0) == "0";
    }
  }

  /** `read_stan()`: the tree after it (`off` is written when there is no file) and the stripped text; None when it raises. */
  function StanRead(t: Tree, now: int): Option<(Tree, string)> {
    if !Exists(t, StanPath) then Some((Put(t, StanPath, File("off", now)), "off"))
    else
      match ReadText(t, StanPath)
      case None => None
      case Some(text) => Some((t, Strip(text)))
  }

  lemma StrippedWord(w: string)
    requires w == "on" || w == "off"
    ensures Strip(w) == w
  {
    StripOfStripped(w);
  }

  /** Reading the state again writes nothing more and gives the same answer. */
  lemma StanReadSettles(t: Tree, now: int, later: int)
    requires StanRead(t, now).Some?
    ensures var (u, w) := StanRead(t, now).value;
            StanRead(u, later) == Some((u, w))
  {
    if !Exists(t, StanPath) {
      PutRead(t, StanPath, File("off", now), StanPath);
      StrippedWord("off");
    } else {
      StripIdempotent(ReadText(t, StanPath).value);
    }
  }

  /** Reading the state touches no file but the state file. */
  lemma StanReadElsewhere(t: Tree, now: int, q: Path)
    requires StanRead(t, now).Some? && q != StanPath
    ensures NodeAt(StanRead(t, now).value.0, q) == NodeAt(t, q)
  {
    PutRead(t, StanPath, File("off", now), q);
  }

  function Toggled(w: string): string {
    if w == "on" then "off" else "on"
  }

  /** `toggle_stan()`: the tree after it; None when reading the state raises. */
  function StanToggle(t: Tree, now: int): Option<Tree> {
    match StanRead(t, now)
    case None => None
    case Some((u, w)) => Some(Put(u, StanPath, File(Toggled(w), now)))
  }

  /** After a toggle the bar reads the other state. */
  lemma ToggleFlips(t: Tree, now: int, later: int)
    requires StanRead(t, now).Some?
    ensures StanToggle(t, now).Some?
    ensures StanRead(StanToggle(t, now).value, later)
         == Some((StanToggle(t, now).value, Toggled(StanRead(t, now).value.1)))
  {
    var (u, w) := StanRead(t, now).value;
    PutRead(u, StanPath, File(Toggled(w), now), StanPath);
    StrippedWord(Toggled(w));
  }

  /** Two toggles bring back a state that was `on` or `off`. */
  lemma ToggleTwice(t: Tree, now: int, later: int, last: int)
    requires StanRead(t, now).Some?
    requires StanRead(t, now).value.1 == "on" || StanRead(t, now).value.1 == "off"
    ensures StanToggle(t, now).Some? && StanToggle(StanToggle(t, now).value, later).Some?
    ensures StanRead(StanToggle(StanToggle(t, now).value, later).value, last).Some?
    ensures StanRead(StanToggle(StanToggle(t, now).value, later).value, last).value.1 == StanRead(t, now).value.1
  {
    ToggleFlips(t, now, later);
    var u := StanToggle(t, now).value;
    ToggleFlips(u, later, last);
  }

  // ---------------------------------------------------------------------------
  // The timer's logic
  // ---------------------------------------------------------------------------

  /** What the bar keeps between ticks: the files and the window's own fields. */
  datatype BarState = BarState(tree: Tree, selected: int, slotFolders: map<int, Path>,
                               lastCoords: Option<(int, int)>, lastSignalMTime: Option<int>)

  /**
   * Part one of `handle_logic()`: on a new signal time, give the selected
   * slot to the first template folder without a slot file. The flag is false
   * when copying the slot file raises, which ends the tick.
   */
  function SignalStep(b: BarState): (BarState, bool) {
    match MTime(b.tree, SignalPath)
    case None => (b, true)
    case Some(m) =>
      if b.lastSignalMTime == Some(m) then (b, true)
      else
        var b1 := b.(lastSignalMTime := Some(m));
        match Unassigned(b.tree, Children(b.tree, Base))
        case None => (b1, true)
        case Some(f) => Reassign(b1, f)
  }

  /** The tree once the folder bound to the selected slot, if any, is deleted. */
  function Cleared(b: BarState): Tree {
    var folders := SlotFolders(b.tree);
    if b.selected in folders then RemoveTree(b.tree, folders[b.selected]) else b.tree
  }

  /** The folder bound to the selected slot is deleted, and `f` gets a copy of the bar's slot file (false when that copy raises). */
  function Reassign(b: BarState, f: Path): (BarState, bool) {
    var t1 := Cleared(b);
    match NodeAt(t1, SlotPath)
    case Some(File(text, mtime)) =>
      var t2 := Put(t1, f + [SlotName], File(text, mtime));
      (b.(tree := t2, slotFolders := SlotFolders(t2)), true)
    case _ => (b.(tree := t1, slotFolders := SlotFolders(b.tree)), false)
  }

  lemma ClearedDistinct(b: BarState)
    requires Distinct(b.tree)
    ensures Distinct(Cleared(b))
  {
    var folders := SlotFolders(b.tree);
    RemoveTreeDistinct(b.tree, if b.selected in folders then folders[b.selected] else []);
  }

  /** After a reassignment `f` holds the text the bar's own slot file held. */
  lemma ReassignCopiesSlot(b: BarState, f: Path)
    requires Distinct(b.tree) && Reassign(b, f).1
    ensures ReadText(Reassign(b, f).0.tree, f + [SlotName]) == ReadText(b.tree, SlotPath)
  {
    var t1 := Cleared(b);
    ClearedDistinct(b);
    var node := NodeAt(t1, SlotPath).value;
    var t2 := Reassign(b, f).0.tree;
    NodeAtKinds(t1, SlotPath);
    EntryAt(t1, SlotPath);
    EntryFound(b.tree, Entry(SlotPath, node));
    NodeAtKinds(b.tree, SlotPath);
    PutRead(t1, f + [SlotName], node, f + [SlotName]);
    NodeAtKinds(t2, f + [SlotName]);
  }

  /** The folder bound to the selected slot before a reassignment is gone after it. */
  lemma ReassignDropsOld(b: BarState, f: Path)
    requires ChildOf(f, Base) && b.selected in SlotFolders(b.tree) && Reassign(b, f).1
    ensures !Exists(Reassign(b, f).0.tree, SlotFolders(b.tree)[b.selected])
  {
    var g := SlotFolders(b.tree)[b.selected];
    var t1 := Cleared(b);
    var node := ReassignTree(b, f);
    SlotFoldersInBase(b.tree);
    RemoveTreeGone(b.tree, g);
    PutElsewhere(t1, f + [SlotName], node, g);
  }

  /** After a reassignment `f` is still a template folder of the bar. */
  lemma ReassignKeepsFolder(b: BarState, f: Path)
    requires f in Children(b.tree, Base) && Template(b.tree, f) && !Exists(b.tree, f + [SlotName])
    requires Reassign(b, f).1
    ensures Template(Reassign(b, f).0.tree, f) && f in Children(Reassign(b, f).0.tree, Base)
  {
    var t1 := Cleared(b);
    var node := ReassignTree(b, f);
    ClearedKeeps(b, f);
    KeepsFolder(b.tree, t1, node, f);
  }

  /** A reassignment that succeeds writes the bar's slot file node into `f` on the cleared tree. */
  lemma ReassignTree(b: BarState, f: Path) returns (node: Node)
    requires Reassign(b, f).1
    ensures NodeAt(Cleared(b), SlotPath) == Some(node)
    ensures Reassign(b, f).0.tree == Put(Cleared(b), f + [SlotName], node)
  {
    var t1 := Cleared(b);
    match NodeAt(t1, SlotPath)
    case Some(File(text, mtime)) =>
      node := File(text, mtime);
    case _ =>
      assert false;
  }

  lemma ClearedKeeps(b: BarState, f: Path)
    requires f in Children(b.tree, Base) && !Exists(b.tree, f + [SlotName])
    ensures NodeAt(Cleared(b), f) == NodeAt(b.tree, f)
  {
    FolderKept(b, f);
    var folders := SlotFolders(b.tree);
    if b.selected in folders {
      RemoveTreeElsewhere(b.tree, folders[b.selected], f);
    }
  }

  /** A folder that is unchanged stays a folder of the bar when a file is written inside it. */
  lemma KeepsFolder(t: Tree, t1: Tree, node: Node, f: Path)
    requires NodeAt(t1, f) == NodeAt(t, f) && IsDir(t, f) && ChildOf(f, Base)
    ensures IsDir(Put(t1, f + [SlotName], node), f) && f in Children(Put(t1, f + [SlotName], node), Base)
  {
    NodeAtKinds(t, f);
    NodeAtKinds(t1, f);
    assert |f + [SlotName]| != |f|;
    PutElsewhere(t1, f + [SlotName], node, f);
    ExistsChild(Put(t1, f + [SlotName], node), f, Base);
  }

  /**
   * A reassignment gives `f` the slot number the bar's slot file holds, and
   * that slot is bound to a folder afterwards.
   */
  lemma ReassignBindsSlot(b: BarState, f: Path)
    requires Distinct(b.tree)
    requires f in Children(b.tree, Base) && Template(b.tree, f) && !Exists(b.tree, f + [SlotName])
    requires Reassign(b, f).1
    ensures SlotOf(Reassign(b, f).0.tree, f) == SlotOf(b.tree, Base)
    ensures SlotOf(b.tree, Base).Some? ==> SlotOf(b.tree, Base).value in Reassign(b, f).0.slotFolders
  {
    var t2 := Reassign(b, f).0.tree;
    ReassignCopiesSlot(b, f);
    assert SlotPath == Base + [SlotName];
    ReassignKeepsFolder(b, f);
    var fs := Children(t2, Base);
    var k :| 0 <= k < |fs| && fs[k] == f;
    if SlotOf(b.tree, Base).Some? {
      SlotMapHas(t2, fs, k);
    }
  }

  /** A folder without a slot file is never the one bound to a slot, so clearing does not touch it. */
  lemma FolderKept(b: BarState, f: Path)
    requires f in Children(b.tree, Base) && !Exists(b.tree, f + [SlotName])
    ensures var folders := SlotFolders(b.tree);
            b.selected in folders ==> !Under(f, folders[b.selected])
  {
    var folders := SlotFolders(b.tree);
    if b.selected in folders {
      var g := folders[b.selected];
      SlotMapSound(b.tree, Children(b.tree, Base));
      SlotFoldersInBase(b.tree);
      assert Exists(b.tree, g + [SlotName]);
      assert f != g;
      assert f[..|Base|] == Base == g[..|Base|];
    }
  }

  /** The point in `2xlp.txt`, if it reads and holds one. */
  function ClickPoint(t: Tree): Option<(int, int)> {
    match ReadText(t, Lp2Path)
    case None => None
    case Some(text) => StartSearch(text)
  }

  /** The point `2xlp.txt` holds after a double click on the map is the clicked point. */
  lemma ClickPointOfDoubleClick(t: Tree, stamp: string, x: int, y: int)
    requires stamp != [] && '\n' !in stamp
    requires ReadText(t, Lp2Path) == Some(SensorContent(DoubleClickFields(stamp, x, y)))
    ensures ClickPoint(t) == Some((x, y))
  {
    TwoClickStart(stamp, x, y);
  }

  /**
   * Part two of `handle_logic()`: when the bar is on and `2xlp.txt` holds a
   * point, a point different from the last one seen adds an object from the
   * selected slot's template; the point is remembered unless adding failed.
   * The flag is false when `read_stan()` raises, which ends the tick.
   */
  function PlaceStep(b: BarState, now: int): (BarState, bool) {
    match StanRead(b.tree, now)
    case None => (b, false)
    case Some((t, w)) =>
      if w != "on" then (b.(tree := t), true)
      else
        match ClickPoint(t)
        case None => (b.(tree := t), true)
        case Some(c) => (PlaceAt(b.(tree := t), c, now), true)
  }

  function PlaceAt(b: BarState, c: (int, int), now: int): BarState {
    if b.lastCoords.Some? && b.lastCoords != Some(c) && b.selected in b.slotFolders then
      var (t, ok) := AddObject(b.tree, b.slotFolders[b.selected], c, now);
      b.(tree := t, lastCoords := if ok then Some(c) else b.lastCoords)
    else b.(lastCoords := Some(c))
  }

  /**
   * One tick: part two runs unless part one raised. The flag is false when
   * either part raised; the exception then leaves `tick()` uncaught.
   */
  function HandleStep(b: BarState, now: int): (BarState, bool) {
    var (b1, ok) := SignalStep(b);
    if ok then PlaceStep(b1, now) else (b1, false)
  }

  /**
   * A tick raises exactly when the slot file cannot be copied to the folder
   * that receives it, or when the state file is a directory once the signal
   * step is done; a tick that raises in part one leaves the files as part one
   * left them and never reads the state.
   */
  lemma HandleStepRaises(b: BarState, now: int)
    ensures var (b1, ok1) := SignalStep(b);
            HandleStep(b, now).1 <==> ok1 && !IsDir(b1.tree, StanPath)
    ensures !SignalStep(b).1 ==> HandleStep(b, now).0 == SignalStep(b).0
    ensures SignalStep(b).1 && IsDir(SignalStep(b).0.tree, StanPath) ==> HandleStep(b, now).0 == SignalStep(b).0
  {
    var b1 := SignalStep(b).0;
    NodeAtKinds(b1.tree, StanPath);
  }

  /** The point the bar would act on in this tick: there is one only while the bar is on. */
  function CurrentPoint(t: Tree, now: int): Option<(int, int)> {
    match StanRead(t, now)
    case Some((u, w)) => if w == "on" then ClickPoint(u) else None
    case None => None
  }

  /**
   * No object is added unless the bar is on, a point is read, a point was
   * seen before, the point moved and the selected slot has a template: the
   * first point read, a repeated point or an unbound slot only record the
   * point, and only the state file may be written.
   */
  lemma PlaceOnlyOnNewPoint(b: BarState, now: int)
    requires StanRead(b.tree, now).Some?
    requires var p := CurrentPoint(b.tree, now);
             !(p.Some? && b.lastCoords.Some? && b.lastCoords != p && b.selected in b.slotFolders)
    ensures var p := CurrentPoint(b.tree, now);
            PlaceStep(b, now) == (b.(tree := StanRead(b.tree, now).value.0,
                                     lastCoords := if p.Some? then p else b.lastCoords), true)
    ensures forall q :: q != StanPath ==> NodeAt(PlaceStep(b, now).0.tree, q) == NodeAt(b.tree, q)
  {
    forall q | q != StanPath ensures NodeAt(PlaceStep(b, now).0.tree, q) == NodeAt(b.tree, q) {
      StanReadElsewhere(b.tree, now, q);
    }
  }

  /**
   * A moved point with a bound template adds a new object made from the
   * template, whose data file is the template's with the point set (only the
   * point when the template has no data file); the point is remembered only
   * when adding succeeded.
   */
  lemma PlaceOnNewPoint(b: BarState, now: int)
    requires Distinct(b.tree) && Rooted(b.tree)
    requires CurrentPoint(b.tree, now).Some?
    requires b.lastCoords.Some? && b.lastCoords != CurrentPoint(b.tree, now) && b.selected in b.slotFolders
    requires ChildOf(b.slotFolders[b.selected], Base)
    ensures var u := StanRead(b.tree, now).value.0;
            var template := b.slotFolders[b.selected];
            var c := CurrentPoint(b.tree, now).value;
            var (t, ok) := AddObject(u, template, c, now);
            && PlaceStep(b, now) == (b.(tree := t, lastCoords := if ok then Some(c) else b.lastCoords), true)
            && (ok ==> ReadText(t, NewObject(u) + [Repository.DataName])
                       == Some(WriteXYText(XYContent(b.tree, template + [Repository.DataName]), c.0, c.1)))
  {
    var u := StanRead(b.tree, now).value.0;
    var template := b.slotFolders[b.selected];
    var c := CurrentPoint(b.tree, now).value;
    var data := template + [Repository.DataName];
    assert u == b.tree;
    assert |data| != |StanPath|;
    StanReadElsewhere(b.tree, now, data);
    assert ReadText(u, data) == ReadText(b.tree, data);
    assert XYContent(u, data) == XYContent(b.tree, data);
    if AddObject(u, template, c, now).1 {
      AddedData(u, template, c, now);
    }
  }

  // ---------------------------------------------------------------------------
  // The file operations and the window
  // ---------------------------------------------------------------------------

  /** The content `write_xy` starts from: the file's text, or nothing when there is no file. */
  function XYContent(t: Tree, p: Path): string {
    if IsFile(t, p) then ReadText(t, p).value else ""
  }

  /** `write_xy(path, x, y)`; false when `path` is a directory (reading it raises). */
  method WriteXY(disk: Disk, p: Path, x: int, y: int, now: int) returns (ok: bool)
    requires disk.Valid()
    modifies disk
    ensures disk.Valid()
    ensures ok == !IsDir(old(disk.tree), p)
    ensures ok ==> disk.tree == Put(old(disk.tree), p, File(WriteXYText(XYContent(old(disk.tree), p), x, y), now))
    ensures !ok ==> disk.tree == old(disk.tree)
  {
    if IsDir(disk.tree, p) {
      return false;
    }
    var content := if Exists(disk.tree, p) then ReadText(disk.tree, p).value else "";
    disk.WriteText(p, WriteXYText(content, x, y), now);
    ok := true;
  }

  /** The object-adding steps of `handle_logic()`: `next_obj_name()`, `copytree`, `write_xy`. */
  method AddObjectOn(disk: Disk, template: Path, c: (int, int), now: int) returns (ok: bool)
    requires disk.Valid()
    modifies disk
    ensures disk.Valid()
    ensures (disk.tree, ok) == AddObject(old(disk.tree), template, c, now)
  {
    if Exists(disk.tree, Matching.ObjectsDir) && !IsDir(disk.tree, Matching.ObjectsDir) {
      return false;
    }
    if !Exists(disk.tree, Matching.ObjectsDir) {
      disk.Place(Matching.ObjectsDir, Dir);
    }
    var name := NextObjName(disk.tree);
    var dest := Matching.ObjectsDir + [name];
    if Exists(disk.tree, dest) || !IsDir(disk.tree, template) {
      return false;
    }
    var copies := Copies(disk.tree, template, dest);
    disk.Place(dest, Dir);
    disk.PlaceAll(copies);
    ok := WriteXY(disk, dest + [Repository.DataName], c.0, c.1, now);
  }

  /** The number of slots on the bar. */
  const Slots: int := 9

  /**
   * The bar's window: the highlighted slot, the binding of slots to template
   * folders found by the last scan, the last point read from `2xlp.txt` and
   * the signal file's time last acted on.
   */
  class Pasek {
    const disk: Disk
    var selected: int
    var slotFolders: map<int, Path>
    var lastCoords: Option<(int, int)>
    var lastSignalMTime: Option<int>

    ghost predicate Valid()
      reads this, disk
    {
      disk.Valid() && InBase(slotFolders)
    }

    function State(): BarState
      reads this, disk
    {
      BarState(disk.tree, selected, slotFolders, lastCoords, lastSignalMTime)
    }

    /**
     * `Pasek()`: no bar at all when `read_slot` raises out of `__init__` (its
     * repair write fails because the slot file is a folder), the constructed
     * bar otherwise.
     */
    static method Open(disk: Disk, now: int) returns (p: Pasek?)
      requires disk.Valid()
      modifies disk
      ensures p == null <==> SlotRead(old(disk.tree), now).None?
      ensures p == null ==> disk.tree == old(disk.tree)
      ensures p != null ==>
                fresh(p) && p.Valid() && p.disk == disk
                && SlotRead(old(disk.tree), now) == Some((disk.tree, p.selected))
                && p.slotFolders == SlotFolders(disk.tree)
                && p.lastCoords == None && p.lastSignalMTime == MTime(disk.tree, SignalPath)
    {
      if SlotRead(disk.tree, now).None? {
        return null;
      }
      p := new Pasek(disk, now);
    }

    /** The slot comes from the slot file, the binding from a first scan; no point has been seen yet. */
    constructor(disk: Disk, now: int)
      requires disk.Valid() && SlotRead(disk.tree, now).Some?
      modifies disk
      ensures Valid() && this.disk == disk
      ensures SlotRead(old(disk.tree), now) == Some((disk.tree, selected))
      ensures slotFolders == SlotFolders(disk.tree)
      ensures lastCoords == None && lastSignalMTime == MTime(disk.tree, SignalPath)
    {
      this.disk := disk;
      slotFolders := map[];
      new;
      var n := ReadSlot(now);
      ScanFolders();
      selected := n.value;
      lastCoords := None;
      lastSignalMTime := MTime(disk.tree, SignalPath);
    }

    /** `read_slot()`; None when it raises. */
    method ReadSlot(now: int) returns (r: Option<int>)
      requires Valid()
      modifies disk
      ensures Valid()
      ensures SlotRead(old(disk.tree), now) == if r.Some? then Some((disk.tree, r.value)) else None
      ensures r.None? ==> disk.tree == old(disk.tree)
    {
      r := SlotOf(disk.tree, Base);
      if r.None? {
        if IsDir(disk.tree, SlotPath) {
          return None;
        }
        disk.WriteText(SlotPath, "0", now);
        r := Some(0);
      }
    }

    /** `read_stan()`; None when it raises. */
    method ReadStan(now: int) returns (r: Option<string>)
      requires Valid()
      modifies disk
      ensures Valid()
      ensures StanRead(old(disk.tree), now) == if r.Some? then Some((disk.tree, r.value)) else None
      ensures r.None? ==> disk.tree == old(disk.tree)
    {
      if !Exists(disk.tree, StanPath) {
        disk.WriteText(StanPath, "off", now);
        StrippedWord("off");
      }
      var text := ReadText(disk.tree, StanPath);
      if text.None? {
        return None;
      }
      r := Some(Strip(text.value));
    }

    /** `toggle_stan()`; false when reading the state raises. */
    method ToggleStan(now: int) returns (ok: bool)
      requires Valid()
      modifies disk
      ensures Valid()
      ensures ok == StanToggle(old(disk.tree), now).Some?
      ensures disk.tree == if ok then StanToggle(old(disk.tree), now).value else old(disk.tree)
    {
      var w := ReadStan(now);
      if w.None? {
        return false;
      }
      disk.WriteText(StanPath, if w.value == "on" then "off" else "on", now);
      ok := true;
    }

    /** `scan_folders()`. */
    method ScanFolders()
      requires disk.Valid()
      modifies this`slotFolders
      ensures Valid()
      ensures slotFolders == SlotFolders(disk.tree)
    {
      var t := disk.tree;
      var fs := Children(t, Base);
      var m: map<int, Path> := map[];
      var i := 0;
      while i < |fs|
        invariant 0 <= i <= |fs|
        invariant m == SlotMap(t, fs[..i])
      {
        assert fs[..i + 1][..i] == fs[..i];
        var f := fs[i];
        if IsDir(t, f) && Visible(Name(f)) {
          var s := SlotOf(t, f);
          if s.Some? {
            m := m[s.value := f];
          }
        }
        i := i + 1;
      }
      assert fs[..i] == fs;
      SlotFoldersInBase(t);
      slotFolders := m;
    }

    /** A click on slot `i`: it is selected, written to the slot file, and the folders are scanned again. */
    method SelectSlot(i: int, now: int) returns (ok: bool)
      requires Valid() && 0 <= i < Slots
      modifies this, disk
      ensures Valid() && selected == i
      ensures ok == !IsDir(old(disk.tree), SlotPath)
      ensures ok ==> disk.tree == Put(old(disk.tree), SlotPath, File(IntToString(i), now))
                     && slotFolders == SlotFolders(disk.tree)
      ensures !ok ==> disk.tree == old(disk.tree) && slotFolders == old(slotFolders)
      ensures lastCoords == old(lastCoords) && lastSignalMTime == old(lastSignalMTime)
    {
      selected := i;
      if IsDir(disk.tree, SlotPath) {
        return false;
      }
      disk.WriteText(SlotPath, IntToString(i), now);
      ScanFolders();
      ok := true;
    }

    /** The loop of part one that looks for a template folder without a slot file. */
    method FindNewFolder() returns (f: Option<Path>)
      ensures f == Unassigned(disk.tree, Children(disk.tree, Base))
    {
      var fs := Children(disk.tree, Base);
      var i := 0;
      while i < |fs|
        invariant 0 <= i <= |fs|
        invariant Unassigned(disk.tree, fs[i..]) == Unassigned(disk.tree, fs)
      {
        assert fs[i..][1..] == fs[i + 1..];
        var g := fs[i];
        if Template(disk.tree, g) && !Exists(disk.tree, g + [SlotName]) {
          return Some(g);
        }
        i := i + 1;
      }
      f := None;
    }

    /** Give the selected slot to `f`: delete the folder bound to it, copy the slot file into `f`, scan again. */
    method Rebind(f: Path) returns (ok: bool)
      requires Valid()
      modifies this, disk
      ensures Valid()
      ensures (State(), ok) == Reassign(old(State()), f)
    {
      ScanFolders();
      if selected in slotFolders {
        disk.Remove(slotFolders[selected]);
      }
      var node := NodeAt(disk.tree, SlotPath);
      if node.Some? && node.value.File? {
        disk.Place(f + [SlotName], node.value);
        ScanFolders();
        ok := true;
      } else {
        ok := false;
      }
    }

    /** Part one of `handle_logic()`; false when it raises. */
    method Signal() returns (ok: bool)
      requires Valid()
      modifies this, disk
      ensures Valid()
      ensures (State(), ok) == SignalStep(old(State()))
    {
      var m := MTime(disk.tree, SignalPath);
      if m.None? || lastSignalMTime == m {
        return true;
      }
      lastSignalMTime := m;
      var f := FindNewFolder();
      if f.None? {
        return true;
      }
      ok := Rebind(f.value);
    }

    /** Part two of `handle_logic()`; false when `read_stan()` raises. */
    method Place(now: int) returns (ok: bool)
      requires Valid()
      modifies this, disk
      ensures Valid()
      ensures (State(), ok) == PlaceStep(old(State()), now)
      ensures ok <==> StanRead(old(disk.tree), now).Some?
    {
      var w := ReadStan(now);
      ok := w.Some?;
      if w != Some("on") {
        return;
      }
      var c := ClickPoint(disk.tree);
      if c.None? {
        return;
      }
      PlaceOn(c.value, now);
    }

    /** A new point adds an object from the bound template; the first point is only remembered. */
    method PlaceOn(c: (int, int), now: int)
      requires Valid()
      modifies this, disk
      ensures Valid()
      ensures State() == PlaceAt(old(State()), c, now)
    {
      if lastCoords.Some? && lastCoords != Some(c) && selected in slotFolders {
        var ok := AddObjectOn(disk, slotFolders[selected], c, now);
        if ok {
          lastCoords := Some(c);
        }
      } else {
        lastCoords := Some(c);
      }
    }

    /** `handle_logic()`, run on every tick of the timer; false when the tick raises. */
    method HandleLogic(now: int) returns (ok: bool)
      requires Valid()
      modifies this, disk
      ensures Valid()
      ensures (State(), ok) == HandleStep(old(State()), now)
      ensures ok <==> SignalStep(old(State())).1 && StanRead(SignalStep(old(State())).0.tree, now).Some?
    {
      ok := Signal();
      if ok {
        ok := Place(now);
      }
    }
  }
}
