/**
 * The racing game's track file: `save_data` writes the spawn point and the
 * checkpoint gates as lines of text, `load_data` parses them back and falls
 * back to a default track when the file is missing or anything in it fails
 * to parse. Also the two-click gate editor of the main loop.
 */
module TrackFile {
  import opened Wrappers
  import opened PyText

  /** A point as the game keeps it: a list of integer coordinates, normally [x, y]. */
  type Point = seq<int>

  /** A checkpoint gate: the two end points of its line. */
  type Gate = (Point, Point)

  /** What `load_data` returns: the spawn point and the list of gates. */
  datatype Track = Track(spawn: Point, checkpoints: seq<Gate>)

  /** `save_data` reads the first two coordinates of every point. */
  predicate Savable(spawn: Point, checkpoints: seq<Gate>) {
    && |spawn| >= 2
    && forall i :: 0 <= i < |checkpoints| ==> |checkpoints[i].0| >= 2 && |checkpoints[i].1| >= 2
  }

  /** Every point has exactly the two coordinates the game uses. */
  predicate Planar(spawn: Point, checkpoints: seq<Gate>) {
    && |spawn| == 2
    && forall i :: 0 <= i < |checkpoints| ==> |checkpoints[i].0| == 2 && |checkpoints[i].1| == 2
  }

  /** `f"{p[0]},{p[1]}"` */
  function PointText(p: Point): (s: string)
    requires |p| >= 2
  {
    IntToString(p[0]) + "," + IntToString(p[1])
  }

  /** `f"{cp[0][0]},{cp[0][1]}|{cp[1][0]},{cp[1][1]}"` */
  function GateText(g: Gate): (s: string)
    requires |g.0| >= 2 && |g.1| >= 2
  {
    PointText(g.0) + "|" + PointText(g.1)
  }

  /** One line per gate, in order: the gate's text followed by its newline. */
  predicate GateLines(lines: seq<string>, checkpoints: seq<Gate>)
    decreases |checkpoints|
  {
    && |lines| == |checkpoints|
    && (checkpoints != [] ==>
        && |checkpoints[0].0| >= 2 && |checkpoints[0].1| >= 2
        && lines[0] == GateText(checkpoints[0]) + "\n"
        && GateLines(lines[1..], checkpoints[1..]))
  }

  /** The loop of `save_data` over the gates: one line per gate. */
  function GatesText(checkpoints: seq<Gate>): (text: string)
    requires Savable([0, 0], checkpoints)
    ensures GateLines(ReadLines(text), checkpoints)
  {
    if checkpoints == [] then ""
    else
      var g, rest := checkpoints[0], GatesText(checkpoints[1..]);
      var first := GateText(g) + "\n";
      GateTextSplits(g);
      ReadLinesPrefix(GateText(g), rest);
      assert ([first] + ReadLines(rest))[1..] == ReadLines(rest);
      GateText(g) + "\n" + rest
  }

  /** The spawn point's line, then one line per gate. */
  predicate SavedLines(lines: seq<string>, spawn: Point, checkpoints: seq<Gate>) {
    && |spawn| >= 2 && |lines| == |checkpoints| + 1
    && lines[0] == PointText(spawn) + "\n"
    && GateLines(lines[1..], checkpoints)
  }

  /** The text `save_data(spawn, checkpoints)` writes to the track file. */
  function SaveData(spawn: Point, checkpoints: seq<Gate>): (text: string)
    requires Savable(spawn, checkpoints)
    ensures SavedLines(ReadLines(text), spawn, checkpoints)
  {
    var gates := GatesText(checkpoints);
    PointTextChars(spawn);
    ReadLinesPrefix(PointText(spawn), gates);
    assert ReadLines(PointText(spawn) + "\n" + gates)[1..] == ReadLines(gates);
    PointText(spawn) + "\n" + gates
  }

  /** Applies a parser to every item of a list; fails exactly when it fails on some item. */
  function TryMap<A, B>(items: seq<A>, parse: A -> Option<B>): (r: Option<seq<B>>)
    ensures r.Some? <==> forall i :: 0 <= i < |items| ==> parse(items[i]).Some?
    ensures r.Some? ==> |r.value| == |items| && forall i :: 0 <= i < |items| ==> parse(items[i]) == Some(r.value[i])
  {
    if items == [] then Some([])
    else
      var head, tail := parse(items[0]), TryMap(items[1..], parse);
      assert forall i :: 1 <= i < |items| ==> items[1..][i - 1] == items[i];
      if head.Some? && tail.Some? then Some([head.value] + tail.value) else None
  }

  /** `[int(i) for i in fields]` */
  function ParseInts(fields: seq<string>): (r: Option<seq<int>>) {
    TryMap(fields, ParseInt)
  }

  /** Every ','-separated field of `text` is an integer to `int()`. */
  predicate IntFields(text: string) {
    forall i :: 0 <= i < |Split(text, ',')| ==> ParseInt(Split(text, ',')[i]).Some?
  }

  /** The ','-separated fields of `text` are, one by one, the integers of `p`. */
  predicate FieldsOf(text: string, p: Point) {
    var fields := Split(text, ',');
    |p| == |fields| && forall i :: 0 <= i < |fields| ==> ParseInt(fields[i]) == Some(p[i])
  }

  /** A gate line: its stripped text has exactly one '|', and the two sides' fields are the two points. */
  predicate GateOf(line: string, g: Gate) {
    var halves := Split(Strip(line), '|');
    |halves| == 2 && FieldsOf(halves[0], g.0) && FieldsOf(halves[1], g.1)
  }

  /**
   * One gate line: `p1_s, p2_s = line.strip().split("|")`, then the integers
   * of each side. Fails exactly when the line has other than one '|' or a
   * field on either side is not an integer.
   */
  function ParseGate(line: string): (r: Option<Gate>)
    ensures var halves := Split(Strip(line), '|');
      r.Some? <==> |halves| == 2 && IntFields(halves[0]) && IntFields(halves[1])
    ensures r.Some? ==> GateOf(line, r.value)
  {
    var halves := Split(Strip(line), '|');
    if |halves| != 2 then None
    else
      var p1, p2 := ParseInts(Split(halves[0], ',')), ParseInts(Split(halves[1], ','));
      FieldsParsed(halves[0], p1);
      FieldsParsed(halves[1], p2);
      if p1.Some? && p2.Some? then Some((p1.value, p2.value)) else None
  }

  /** `[int(i) for i in text.split(",")]` succeeds exactly on integer fields, and gives their values. */
  lemma FieldsParsed(text: string, p: Option<seq<int>>)
    requires p == ParseInts(Split(text, ','))
    ensures p.Some? <==> IntFields(text)
    ensures p.Some? ==> FieldsOf(text, p.value)
  {
  }

  /** The loop of `load_data` over the lines after the first. */
  function ParseGates(lines: seq<string>): (r: Option<seq<Gate>>) {
    TryMap(lines, ParseGate)
  }

  /** What makes `load_data` raise: no first line, a spawn field that is not an integer, or a bad gate line. */
  predicate Malformed(text: string) {
    var lines := ReadLines(text);
    || lines == []
    || !IntFields(Strip(lines[0]))
    || exists k :: 1 <= k < |lines| && ParseGate(lines[k]).None?
  }

  /** The first line holds the spawn point's fields and line k + 1 is gate k. */
  predicate TrackOf(lines: seq<string>, track: Track) {
    && |lines| == |track.checkpoints| + 1
    && FieldsOf(Strip(lines[0]), track.spawn)
    && forall k :: 1 <= k < |lines| ==> ParseGate(lines[k]) == Some(track.checkpoints[k - 1])
  }

  /** The body of the `try` in `load_data`: None where Python raises. */
  function ParseTrack(text: string): (r: Option<Track>)
    ensures r.None? <==> Malformed(text)
    ensures r.Some? ==> TrackOf(ReadLines(text), r.value)
  {
    var lines := ReadLines(text);
    if lines == [] then None
    else
      var spawn, gates := ParseInts(Split(Strip(lines[0]), ',')), ParseGates(lines[1..]);
      FieldsParsed(Strip(lines[0]), spawn);
      GatesParsed(lines, gates);
      if spawn.Some? && gates.Some? then Some(Track(spawn.value, gates.value)) else None
  }

  /** The gate lines parse exactly when each one does, into one gate per line. */
  lemma GatesParsed(lines: seq<string>, gates: Option<seq<Gate>>)
    requires lines != [] && gates == ParseGates(lines[1..])
    ensures gates.Some? <==> forall k :: 1 <= k < |lines| ==> ParseGate(lines[k]).Some?
    ensures gates.Some? ==>
      |gates.value| == |lines| - 1 && forall k :: 1 <= k < |lines| ==> ParseGate(lines[k]) == Some(gates.value[k - 1])
  {
    assert forall k :: 1 <= k < |lines| ==> lines[1..][k - 1] == lines[k];
  }

  /** `[TRACK_WIDTH//2, TRACK_HEIGHT//2], []`: spawn in the middle of the track, no gates. */
  function DefaultTrack(width: nat, height: nat): (t: Track) {
    Track([width / 2, height / 2], [])
  }

  /**
   * `load_data()`: `file` is the content of the track file, None when it
   * does not exist; `width` and `height` are the track image's size.
   */
  function LoadData(file: Option<string>, width: nat, height: nat): (r: Track)
    ensures file.None? || Malformed(file.value) ==> r == DefaultTrack(width, height)
    ensures file.Some? && !Malformed(file.value) ==> TrackOf(ReadLines(file.value), r)
  {
    match file
    case None => DefaultTrack(width, height)
    case Some(text) =>
      match ParseTrack(text)
      case Some(track) => track
      case None => DefaultTrack(width, height)
  }

  /** The gates with every point cut down to the two coordinates `save_data` writes. */
  function Truncated(checkpoints: seq<Gate>): (r: seq<Gate>)
    requires Savable([0, 0], checkpoints)
    ensures |r| == |checkpoints|
  {
    if checkpoints == [] then []
    else [(checkpoints[0].0[..2], checkpoints[0].1[..2])] + Truncated(checkpoints[1..])
  }

  // Round trip

  /** The text of an integer holds only digits and a minus sign, so no separator and no whitespace. */
  lemma IntToStringChars(n: int)
    ensures var s := IntToString(n);
      && ',' !in s && '|' !in s && '\n' !in s
      && !IsSpace(s[0]) && !IsSpace(s[|s| - 1])
  {
    var s := IntToString(n);
    if n < 0 {
      assert s == "-" + NatToString(-n);
      assert forall i :: 0 <= i < |s| ==> s[i] == '-' || IsDigit(s[i]);
    } else {
      assert forall i :: 0 <= i < |s| ==> IsDigit(s[i]);
    }
  }

  /** A point's text: no '|' and no '\n' in it, and no whitespace at its ends. */
  lemma PointTextChars(p: Point)
    requires |p| >= 2
    ensures '|' !in PointText(p) && '\n' !in PointText(p)
    ensures !IsSpace(PointText(p)[0]) && !IsSpace(PointText(p)[|PointText(p)| - 1])
  {
    IntToStringChars(p[0]);
    IntToStringChars(p[1]);
    JoinedChars(IntToString(p[0]), IntToString(p[1]), PointText(p));
  }

  /** Two texts with no '|', no '\n' and no whitespace at their ends, joined by ',': the same holds of the result. */
  lemma JoinedChars(a: string, b: string, t: string)
    requires '|' !in a && '\n' !in a && |a| > 0 && !IsSpace(a[0])
    requires '|' !in b && '\n' !in b && |b| > 0 && !IsSpace(b[|b| - 1])
    requires t == a + "," + b
    ensures '|' !in t && '\n' !in t && !IsSpace(t[0]) && !IsSpace(t[|t| - 1])
  {
    assert t[0] == a[0] && t[|t| - 1] == b[|b| - 1];
  }

  /** A point's text splits at ',' into the texts of its first two coordinates. */
  lemma PointTextFields(p: Point)
    requires |p| >= 2
    ensures Split(PointText(p), ',') == [IntToString(p[0]), IntToString(p[1])]
  {
    IntToStringChars(p[0]);
    IntToStringChars(p[1]);
    SplitTwo(IntToString(p[0]), IntToString(p[1]), ',');
  }

  /** Two pieces free of the separator, joined by it, split back into the two. */
  lemma SplitTwo(a: string, b: string, sep: char)
    requires sep !in a && sep !in b
    ensures Split(a + [sep] + b, sep) == [a, b]
  {
    assert Join([a, b], sep) == a + [sep] + b by {
      assert [a, b][1..] == [b];
    }
    SplitJoin([a, b], sep);
  }

  /** The texts of two integers parse back into those integers. */
  lemma ParseTwoInts(x: int, y: int)
    ensures ParseInts([IntToString(x), IntToString(y)]) == Some([x, y])
  {
    ParseIntToString(x);
    ParseIntToString(y);
    TryMapPair(IntToString(x), IntToString(y), ParseInt, x, y);
  }

  /** A parser that succeeds on both items of a pair maps the pair to both results. */
  lemma TryMapPair<A, B>(a: A, b: A, parse: A -> Option<B>, x: B, y: B)
    requires parse(a) == Some(x) && parse(b) == Some(y)
    ensures TryMap([a, b], parse) == Some([x, y])
  {
    var r := TryMap([a, b], parse);
    assert r.value == [x, y];
  }

  /** A point's text splits at ',' into the two integers it was written from. */
  lemma ParsePointText(p: Point)
    requires |p| >= 2
    ensures '|' !in PointText(p) && '\n' !in PointText(p)
    ensures !IsSpace(PointText(p)[0]) && !IsSpace(PointText(p)[|PointText(p)| - 1])
    ensures ParseInts(Split(PointText(p), ',')) == Some(p[..2])
  {
    PointTextChars(p);
    PointTextParses(p);
  }

  /** The parse half of ParsePointText. */
  lemma PointTextParses(p: Point)
    requires |p| >= 2
    ensures ParseInts(Split(PointText(p), ',')) == Some(p[..2])
  {
    assert p[..2] == [p[0], p[1]];
    PointTextFields(p);
    ParseFieldsOf(PointText(p), p[0], p[1]);
  }

  /** Text that splits at ',' into the texts of x and y parses back to [x, y]. */
  lemma ParseFieldsOf(t: string, x: int, y: int)
    requires Split(t, ',') == [IntToString(x), IntToString(y)]
    ensures ParseInts(Split(t, ',')) == Some([x, y])
  {
    ParseTwoInts(x, y);
  }

  /** A line and its '\n': strip gives back the line when it neither starts nor ends with whitespace. */
  lemma StripLine(l: string)
    requires |l| > 0 && !IsSpace(l[0]) && !IsSpace(l[|l| - 1])
    ensures Strip(l + "\n") == l
  {
    var s := l + "\n";
    var r := Strip(s);
    var k := |s| - |StripLeft(s)|;
    assert Trimmed(s, k, r);
    assert s[0] == l[0] && s[|l| - 1] == l[|l| - 1] && IsSpace(s[|l|]);
    assert k == 0;
    assert |r| == |l|;
    assert r == s[..|l|] == l;
  }

  /** A gate's line: no '\n' in it, no whitespace at its ends, and it splits at '|' into its two points' texts. */
  lemma GateTextSplits(g: Gate)
    requires |g.0| >= 2 && |g.1| >= 2
    ensures var l := GateText(g);
      && '\n' !in l && |l| > 0 && !IsSpace(l[0]) && !IsSpace(l[|l| - 1])
      && Split(l, '|') == [PointText(g.0), PointText(g.1)]
  {
    PointTextChars(g.0);
    PointTextChars(g.1);
    BarJoined(PointText(g.0), PointText(g.1), GateText(g));
  }

  /** Two texts with no '|', no '\n' and no whitespace at their ends, joined by '|': the same ends, and split gives them back. */
  lemma BarJoined(a: string, b: string, l: string)
    requires '|' !in a && '\n' !in a && |a| > 0 && !IsSpace(a[0])
    requires '|' !in b && '\n' !in b && |b| > 0 && !IsSpace(b[|b| - 1])
    requires l == a + "|" + b
    ensures '\n' !in l && |l| > 0 && !IsSpace(l[0]) && !IsSpace(l[|l| - 1])
    ensures Split(l, '|') == [a, b]
  {
    assert l == a + ['|'] + b;
    SplitTwo(a, b, '|');
    assert l[0] == a[0] && l[|l| - 1] == b[|b| - 1];
  }

  /** A gate's line parses back into the gate's first two coordinates per point. */
  lemma ParseGateText(g: Gate)
    requires |g.0| >= 2 && |g.1| >= 2
    ensures '\n' !in GateText(g)
    ensures ParseGate(GateText(g) + "\n") == Some((g.0[..2], g.1[..2]))
  {
    var l := GateText(g);
    GateTextSplits(g);
    StripLine(l);
    ParsePointText(g.0);
    ParsePointText(g.1);
  }

  /** The gate lines of `save_data` read and parse back into the truncated gates. */
  lemma {:induction false} ParseGatesText(checkpoints: seq<Gate>)
    requires Savable([0, 0], checkpoints)
    ensures ParseGates(ReadLines(GatesText(checkpoints))) == Some(Truncated(checkpoints))
    decreases |checkpoints|
  {
    if checkpoints == [] {
      assert GatesText(checkpoints) == "";
    } else {
      var g := checkpoints[0];
      SavableRest(checkpoints);
      ParseGateText(g);
      ReadLinesPrefix(GateText(g), GatesText(checkpoints[1..]));
      ParseGatesText(checkpoints[1..]);
      var lines, rest := ReadLines(GatesText(checkpoints)), ReadLines(GatesText(checkpoints[1..]));
      assert lines == [GateText(g) + "\n"] + rest;
      assert lines[1..] == rest;
      GatesCons(lines, (g.0[..2], g.1[..2]), Truncated(checkpoints[1..]));
    }
  }

  /** The gates after the first of a savable list are savable too. */
  lemma SavableRest(checkpoints: seq<Gate>)
    requires Savable([0, 0], checkpoints) && checkpoints != []
    ensures Savable([0, 0], checkpoints[1..])
  {
    forall i | 0 <= i < |checkpoints| - 1
      ensures |checkpoints[1..][i].0| >= 2 && |checkpoints[1..][i].1| >= 2
    {
      assert checkpoints[1..][i] == checkpoints[i + 1];
    }
  }

  /** Gate lines parse when the first line parses and the others do. */
  lemma GatesCons(lines: seq<string>, gate: Gate, tail: seq<Gate>)
    requires |lines| >= 1 && ParseGate(lines[0]) == Some(gate) && ParseGates(lines[1..]) == Some(tail)
    ensures ParseGates(lines) == Some([gate] + tail)
  {
  }

  /**
   * Loading what `save_data` wrote gives back the spawn point and the gates,
   * each point cut down to the two coordinates written; when every point has
   * exactly two, the very same track.
   */
  lemma LoadSaved(spawn: Point, checkpoints: seq<Gate>, width: nat, height: nat)
    requires Savable(spawn, checkpoints)
    ensures LoadData(Some(SaveData(spawn, checkpoints)), width, height) == Track(spawn[..2], Truncated(checkpoints))
    ensures Planar(spawn, checkpoints) ==> LoadData(Some(SaveData(spawn, checkpoints)), width, height) == Track(spawn, checkpoints)
  {
    ParseSaved(spawn, checkpoints);
    if Planar(spawn, checkpoints) {
      PlanarTruncated(checkpoints);
      assert spawn[..2] == spawn;
    }
  }

  /** The text `save_data` writes parses, line by line, into the spawn point and the truncated gates. */
  lemma ParseSaved(spawn: Point, checkpoints: seq<Gate>)
    requires Savable(spawn, checkpoints)
    ensures ParseTrack(SaveData(spawn, checkpoints)) == Some(Track(spawn[..2], Truncated(checkpoints)))
  {
    var first, gates := PointText(spawn), GatesText(checkpoints);
    ParsePointText(spawn);
    ReadLinesPrefix(first, gates);
    var lines := ReadLines(first + "\n" + gates);
    assert lines == [first + "\n"] + ReadLines(gates);
    SpawnLine(spawn, lines[0]);
    ParseGatesText(checkpoints);
    assert lines[1..] == ReadLines(gates);
  }

  /** The spawn line `save_data` writes parses into the spawn point's first two coordinates. */
  lemma SpawnLine(spawn: Point, line: string)
    requires |spawn| >= 2 && line == PointText(spawn) + "\n"
    ensures ParseInts(Split(Strip(line), ',')) == Some(spawn[..2])
  {
    PointTextChars(spawn);
    StripLine(PointText(spawn));
    PointTextParses(spawn);
  }

  /** Cutting down points that already have two coordinates changes nothing. */
  lemma {:induction false} PlanarTruncated(checkpoints: seq<Gate>)
    requires Planar([0, 0], checkpoints)
    ensures Truncated(checkpoints) == checkpoints
    decreases |checkpoints|
  {
    if checkpoints != [] {
      PlanarTruncated(checkpoints[1..]);
      assert checkpoints[0].0[..2] == checkpoints[0].0 && checkpoints[0].1[..2] == checkpoints[0].1;
      assert [checkpoints[0]] + checkpoints[1..] == checkpoints;
    }
  }

  // Fallback

  /** A missing file, or one whose first line is not a list of integers, loads the default track. */
  lemma BadSpawnFallsBack(file: Option<string>, width: nat, height: nat)
    requires file.Some? ==> var lines := ReadLines(file.value);
      lines == [] || exists i :: 0 <= i < |Split(Strip(lines[0]), ',')| && ParseInt(Split(Strip(lines[0]), ',')[i]).None?
    ensures LoadData(file, width, height) == DefaultTrack(width, height)
  {
  }

  /** A spawn line with a field that is not an integer makes the whole file load the default track. */
  lemma BadFieldFallsBack(text: string, fields: seq<string>, i: int, width: nat, height: nat)
    requires ReadLines(text) != [] && Split(Strip(ReadLines(text)[0]), ',') == fields
    requires 0 <= i < |fields| && ParseInt(fields[i]).None?
    ensures LoadData(Some(text), width, height) == DefaultTrack(width, height)
  {
  }

  /** One bad gate line anywhere after the first line makes the whole file load the default track. */
  lemma BadGateFallsBack(text: string, k: int, width: nat, height: nat)
    requires 1 <= k < |ReadLines(text)| && ParseGate(ReadLines(text)[k]).None?
    ensures LoadData(Some(text), width, height) == DefaultTrack(width, height)
  {
    var lines := ReadLines(text);
    assert lines[1..][k - 1] == lines[k];
  }

  /** A gate line without exactly one '|' fails to parse. */
  lemma GateNeedsOneBar(line: string)
    requires |Split(Strip(line), '|')| != 2
    ensures ParseGate(line).None?
  {
  }

  /** An empty file loads the default track. */
  lemma EmptyFileFallsBack(width: nat, height: nat)
    ensures LoadData(Some(""), width, height) == DefaultTrack(width, height)
  {
  }

  /** A file whose gate line has no '|' loads the default track. */
  lemma GateWithoutBarFallsBack(width: nat, height: nat)
    ensures LoadData(Some("10,20\n1,2\n"), width, height) == DefaultTrack(width, height)
  {
    NoBarLines("10,20\n1,2\n");
    BadGateFallsBack("10,20\n1,2\n", 1, width, height);
  }

  /** In `10,20\n1,2\n` the gate line `1,2` has no '|' to split at. */
  lemma NoBarLines(text: string)
    requires text == "10,20\n1,2\n"
    ensures |ReadLines(text)| == 2 && ParseGate(ReadLines(text)[1]).None?
  {
    assert text == "10,20" + "\n" + "1,2" + "\n";
    TwoLines("10,20", "1,2");
    NoBarGate(ReadLines(text)[1]);
  }

  /** The line `1,2` is one '|'-separated piece. */
  lemma NoBarGate(line: string)
    requires line == "1,2" + "\n"
    ensures ParseGate(line).None?
  {
    WrongBarCount(line, "1,2", ["1,2"]);
  }

  /** A file whose gate line has two '|' loads the default track. */
  lemma GateWithTwoBarsFallsBack(width: nat, height: nat)
    ensures LoadData(Some("10,20\n1,2|3,4|5,6\n"), width, height) == DefaultTrack(width, height)
  {
    TwoBarsLines("10,20\n1,2|3,4|5,6\n");
    BadGateFallsBack("10,20\n1,2|3,4|5,6\n", 1, width, height);
  }

  /** In `10,20\n1,2|3,4|5,6\n` the gate line splits into three pieces, not two. */
  lemma TwoBarsLines(text: string)
    requires text == "10,20\n1,2|3,4|5,6\n"
    ensures |ReadLines(text)| == 2 && ParseGate(ReadLines(text)[1]).None?
  {
    assert text == "10,20" + "\n" + "1,2|3,4|5,6" + "\n";
    TwoLines("10,20", "1,2|3,4|5,6");
    TwoBarsGate(ReadLines(text)[1]);
  }

  /** The line `1,2|3,4|5,6` is three '|'-separated pieces. */
  lemma TwoBarsGate(line: string)
    requires line == "1,2|3,4|5,6" + "\n"
    ensures ParseGate(line).None?
  {
    ThreePieces();
    WrongBarCount(line, "1,2|3,4|5,6", ["1,2", "3,4", "5,6"]);
  }

  lemma ThreePieces()
    ensures Join(["1,2", "3,4", "5,6"], '|') == "1,2|3,4|5,6"
  {
  }

  /** A gate line made of other than two '|'-separated pieces fails to parse. */
  lemma WrongBarCount(line: string, body: string, pieces: seq<string>)
    requires line == body + "\n" && '\n' !in body
    requires |body| > 0 && !IsSpace(body[0]) && !IsSpace(body[|body| - 1])
    requires |pieces| >= 1 && body == Join(pieces, '|') && forall i :: 0 <= i < |pieces| ==> '|' !in pieces[i]
    requires |pieces| != 2
    ensures ParseGate(line).None?
  {
    StripLine(body);
    SplitJoin(pieces, '|');
  }

  /** Two lines, each ended by '\n', read as those two lines. */
  lemma TwoLines(a: string, b: string)
    requires '\n' !in a && '\n' !in b
    ensures ReadLines(a + "\n" + b + "\n") == [a + "\n", b + "\n"]
  {
    ReadLinesPrefix(b, "");
    assert b + "\n" + "" == b + "\n";
    ReadLinesPrefix(a, b + "\n");
    assert a + "\n" + (b + "\n") == a + "\n" + b + "\n";
  }

  /** One line ended by '\n' reads as that one line. */
  lemma OneLine(a: string)
    requires '\n' !in a
    ensures ReadLines(a + "\n") == [a + "\n"]
  {
    ReadLinesPrefix(a, "");
    assert a + "\n" + "" == a + "\n";
  }

  /** A file whose spawn line holds a field that is not an integer loads the default track. */
  lemma NonIntegerFallsBack(width: nat, height: nat)
    ensures LoadData(Some("10,x\n"), width, height) == DefaultTrack(width, height)
  {
    NonIntegerFields("10,x\n");
    NotAnInteger();
    BadFieldFallsBack("10,x\n", ["10", "x"], 1, width, height);
  }

  /** The one line of `10,x\n` splits into the fields `10` and `x`. */
  lemma NonIntegerFields(text: string)
    requires text == "10,x\n"
    ensures ReadLines(text) != [] && Split(Strip(ReadLines(text)[0]), ',') == ["10", "x"]
  {
    assert text == "10,x" + "\n";
    assert Join(["10", "x"], ',') == "10,x";
    SpawnFields(text, "10,x", ["10", "x"]);
  }

  /** `int("x")` raises. */
  lemma NotAnInteger()
    ensures ParseInt("x").None?
  {
    StripUnpadded("x");
  }

  /** The fields of a file made of one line of fields joined by ','. */
  lemma SpawnFields(text: string, line: string, fields: seq<string>)
    requires text == line + "\n" && '\n' !in line && |line| > 0 && !IsSpace(line[0]) && !IsSpace(line[|line| - 1])
    requires |fields| >= 1 && line == Join(fields, ',') && forall i :: 0 <= i < |fields| ==> ',' !in fields[i]
    ensures ReadLines(text) != [] && Split(Strip(ReadLines(text)[0]), ',') == fields
  {
    OneLine(line);
    StripLine(line);
    SplitJoin(fields, ',');
  }

  // Gate editor

  /** The main loop's gate editor: the first click of a pair (`temp_point`) and the gates so far. */
  datatype Editor = Editor(pending: Option<Point>, checkpoints: seq<Gate>)

  /**
   * A left click: the first of a pair is remembered, the second completes a
   * gate from the remembered point to this one.
   */
  function LeftClick(e: Editor, pos: Point): (r: Editor)
    ensures r.pending.Some? <==> e.pending.None?
    ensures |r.checkpoints| == |e.checkpoints| + (if e.pending.Some? then 1 else 0)
    ensures r.checkpoints[..|e.checkpoints|] == e.checkpoints
  {
    match e.pending
    case None => Editor(Some(pos), e.checkpoints)
    case Some(first) => Editor(None, e.checkpoints + [(first, pos)])
  }

  /** Two clicks with nothing pending add exactly the gate between the two points. */
  lemma TwoClicksAddGate(e: Editor, p: Point, q: Point)
    requires e.pending.None?
    ensures LeftClick(LeftClick(e, p), q) == Editor(None, e.checkpoints + [(p, q)])
  {
  }
}
