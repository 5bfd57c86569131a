/**
 * The sensor files the map view leaves for other tools: one small file per
 * kind of click, holding `key=value` lines in a fixed key order.
 */
module Sensors {
  import opened Text
  import opened Numbers
  import opened Sorting

  /** The file a sensor event of `kind` is written to. */
  function SensorFileName(kind: string): (name: string)
    ensures name == kind + ".txt"
  {
    if kind == "lp" then "lp.txt"
    else if kind == "2xlp" then "2xlp.txt"
    else if kind == "pp" then "pp.txt"
    else if kind == "2xpp" then "2xpp.txt"
    else if kind == "przytrzymanie" then "przytrzymanie.txt"
    else if kind == "puszczenie" then "puszczenie.txt"
    else kind + ".txt"
  }

  /** The keys a sensor file may hold; any other key given is never written. */
  datatype Key = Data | Event | Button | Start | End | CzasS

  /** `f"{k}="`: the start of the line a key is written on. */
  function KeyPrefix(k: Key): string {
    match k
    case Data => "data="
    case Event => "event="
    case Button => "button="
    case Start => "start="
    case End => "end="
    case CzasS => "czas_s="
  }

  /** The order the keys are written in. */
  const FieldOrder: seq<Key> := [Data, Event, Button, Start, End, CzasS]

  /** The keys of `ks` that are given a non-empty value, in the order of `ks`. */
  function WrittenKeys(fields: map<Key, string>, ks: seq<Key>): (r: seq<Key>)
    ensures forall i :: 0 <= i < |r| ==> r[i] in fields
  {
    if ks == [] then []
    else if ks[0] in fields && fields[ks[0]] != "" then [ks[0]] + WrittenKeys(fields, ks[1..])
    else WrittenKeys(fields, ks[1..])
  }

  /** Exactly the keys given a non-empty value are written, each once, in the order of `ks`. */
  lemma {:induction false} WrittenKeysSpec(fields: map<Key, string>, ks: seq<Key>)
    ensures forall k :: k in WrittenKeys(fields, ks) <==> k in ks && k in fields && fields[k] != ""
    ensures Unique(ks) ==> Unique(WrittenKeys(fields, ks))
  {
    if ks != [] {
      WrittenKeysSpec(fields, ks[1..]);
      assert forall k :: k in ks <==> k == ks[0] || k in ks[1..];
      var r := WrittenKeys(fields, ks);
      var rest := WrittenKeys(fields, ks[1..]);
      if Unique(ks) && r != rest {
        assert Unique(ks[1..]);
        assert ks[0] !in ks[1..];
        assert ks[0] !in rest;
        forall i, j | 0 <= i < j < |r| ensures r[i] != r[j] {
          if i == 0 {
            assert r[j] == rest[j - 1];
          } else {
            assert r[i] == rest[i - 1] && r[j] == rest[j - 1];
          }
        }
      }
    }
  }

  function SensorLines(fields: map<Key, string>): seq<string> {
    var ks := WrittenKeys(fields, FieldOrder);
    seq(|ks|, i requires 0 <= i < |ks| => KeyPrefix(ks[i]) + fields[ks[i]])
  }

  /** The text of a sensor file: the lines joined by `\n`, plus a final `\n`. */
  function SensorContent(fields: map<Key, string>): string {
    Join(SensorLines(fields), "\n") + "\n"
  }

  lemma {:induction false} JoinTerminated(lines: seq<string>)
    requires lines != []
    ensures Join(lines, "\n") + "\n" == Terminated(lines)
    decreases |lines|
  {
    if |lines| > 1 {
      JoinTerminated(lines[1..]);
    }
  }

  /**
   * Reading a sensor file back line by line gives one `key=value` line per
   * key with a non-empty value, or a single empty line when there is none.
   */
  lemma SensorContentReadBack(fields: map<Key, string>)
    requires forall k :: k in fields ==> NoLineBreak(fields[k])
    ensures var lines := SensorLines(fields);
            SplitLines(SensorContent(fields)) == if lines == [] then [""] else lines
  {
    var lines := SensorLines(fields);
    if lines == [] {
      assert SensorContent(fields) == "\n" + [];
      SplitLinesCons("", []);
    } else {
      SensorLinesPlain(fields);
      JoinTerminated(lines);
      SplitLinesTerminated(lines);
    }
  }

  lemma SensorLinesPlain(fields: map<Key, string>)
    requires forall k :: k in fields ==> NoLineBreak(fields[k])
    ensures forall i :: 0 <= i < |SensorLines(fields)| ==> NoLineBreak(SensorLines(fields)[i])
  {
    var ks := WrittenKeys(fields, FieldOrder);
    forall i | 0 <= i < |ks| ensures NoLineBreak(KeyPrefix(ks[i]) + fields[ks[i]]) {
      KeyPrefixPlain(ks[i]);
      NoLineBreakConcat(KeyPrefix(ks[i]), fields[ks[i]]);
    }
  }

  lemma KeyPrefixPlain(k: Key)
    ensures NoLineBreak(KeyPrefix(k))
  {
  }

  /** The fields a double left click writes to `2xlp.txt`: a time stamp, the event, the button, the point. */
  function DoubleClickFields(stamp: string, x: int, y: int): map<Key, string> {
    ClickFields(stamp, IntToString(x) + " " + IntToString(y))
  }

  /** The fields of a double left click whose point is written as `start`. */
  function ClickFields(stamp: string, start: string): map<Key, string> {
    map[Data := stamp, Event := "2xlp", Button := "lp", Start := start]
  }

  lemma WrittenKeysCons(fields: map<Key, string>, k: Key, ks: seq<Key>)
    ensures WrittenKeys(fields, [k] + ks)
         == (if k in fields && fields[k] != "" then [k] else []) + WrittenKeys(fields, ks)
  {
    assert ([k] + ks)[1..] == ks;
  }

  lemma ClickKeys(stamp: string, start: string)
    requires stamp != "" && start != ""
    ensures WrittenKeys(ClickFields(stamp, start), FieldOrder) == [Data, Event, Button, Start]
  {
    var fields := ClickFields(stamp, start);
    ClickLaterKeys(stamp, start);
    assert WrittenKeys(fields, [Event, Button, Start, End, CzasS]) == [Event, Button, Start] by {
      WrittenKeysCons(fields, Event, [Button, Start, End, CzasS]);
    }
    WrittenKeysCons(fields, Data, [Event, Button, Start, End, CzasS]);
  }

  lemma ClickLaterKeys(stamp: string, start: string)
    requires start != ""
    ensures WrittenKeys(ClickFields(stamp, start), [Button, Start, End, CzasS]) == [Button, Start]
  {
    var fields := ClickFields(stamp, start);
    assert WrittenKeys(fields, [End, CzasS]) == [] by {
      WrittenKeysCons(fields, CzasS, []);
      WrittenKeysCons(fields, End, [CzasS]);
    }
    assert WrittenKeys(fields, [Start, End, CzasS]) == [Start] by {
      WrittenKeysCons(fields, Start, [End, CzasS]);
    }
    WrittenKeysCons(fields, Button, [Start, End, CzasS]);
  }

  lemma ClickLines(stamp: string, start: string)
    requires stamp != "" && start != ""
    ensures SensorLines(ClickFields(stamp, start)) == ["data=" + stamp, "event=2xlp", "button=lp", "start=" + start]
  {
    ClickKeys(stamp, start);
    var lines := SensorLines(ClickFields(stamp, start));
    assert lines == ["data=" + stamp, "event=" + "2xlp", "button=" + "lp", "start=" + start];
    assert "event=" + "2xlp" == "event=2xlp";
    assert "button=" + "lp" == "button=lp";
  }

  /** The text a double left click leaves in `2xlp.txt`. */
  lemma DoubleClickContent(stamp: string, x: int, y: int)
    requires stamp != ""
    ensures SensorContent(DoubleClickFields(stamp, x, y))
         == Terminated(["data=" + stamp, "event=2xlp", "button=lp", "start=" + IntToString(x) + " " + IntToString(y)])
  {
    var start := IntToString(x) + " " + IntToString(y);
    assert start != "" by {
      assert start[|IntToString(x)|] == ' ';
    }
    var lines := ["data=" + stamp, "event=2xlp", "button=lp", "start=" + start];
    ClickLines(stamp, start);
    JoinTerminated(lines);
    ConcatAssoc("start=", IntToString(x), " ", IntToString(y));
    assert lines == ["data=" + stamp, "event=2xlp", "button=lp", "start=" + IntToString(x) + " " + IntToString(y)];
  }

  lemma ConcatAssoc(a: string, b: string, c: string, d: string)
    ensures a + (b + c + d) == a + b + c + d
  {
  }
}
