/**
 * What the OBJ loader of ferrisWheel.js promises about the objects it builds, stated on
 * the specification functions of `ObjParser`: the pools only grow and are shared by all
 * objects of one load, splitting a text into objects partitions the mesh the whole text
 * would make, object lines delimit the groups, texture coordinates never reach a mesh,
 * every parsed colour is red, and the number of positions, normals and colours follows
 * from the face corners alone.
 */
module ObjProperties {
  import opened Text
  import opened Geometry
  import opened ObjRecords
  import opened ObjParser

  // ---------------------------------------------------------------------------
  // Meshes laid end to end

  /** The lists of `b` appended to those of `a`. */
  function Concat(a: Mesh, b: Mesh): Mesh
  {
    Mesh(a.positions + b.positions, a.normals + b.normals, a.colors + b.colors)
  }

  /** All meshes of a list laid end to end, in order. */
  function ConcatAll(ms: seq<Mesh>): Mesh
  {
    if ms == [] then EmptyMesh else Concat(ConcatAll(ms[..|ms| - 1]), ms[|ms| - 1])
  }

  /** The groups of lines laid end to end. */
  function Flatten(groups: seq<seq<string>>): seq<string>
  {
    if groups == [] then [] else Flatten(groups[..|groups| - 1]) + groups[|groups| - 1]
  }

  /** The lines that are not object lines, in order. */
  function Unmarked(lines: seq<string>): seq<string>
  {
    if lines == [] then []
    else Unmarked(lines[..|lines| - 1]) + (if IsObjectLine(lines[|lines| - 1]) then [] else [lines[|lines| - 1]])
  }

  // ---------------------------------------------------------------------------
  // One parse

  /** Appending a corner to a mesh that follows other lists leaves those lists in front. */
  lemma AddCornerShift(m0: Mesh, m: Mesh, p: PoolState, ref: string)
    ensures AddCorner(Concat(m0, m), p, ref) == Concat(m0, AddCorner(m, p, ref))
  {
    var pos := PositionIndex(ref);
    var nrm := NormalIndex(ref);
    var ps := if pos.Some? then [Lookup(p.positions, pos.value)] else [];
    var ns := if nrm.Some? then [Lookup(p.normals, nrm.value)] else [];
    var cs := if EmitsColor(ref) then [Red] else [];
    assert m0.positions + m.positions + ps == m0.positions + (m.positions + ps);
    assert m0.normals + m.normals + ns == m0.normals + (m.normals + ns);
    assert m0.colors + m.colors + cs == m0.colors + (m.colors + cs);
  }

  lemma {:induction false} AddCornersShift(m0: Mesh, m: Mesh, p: PoolState, refs: seq<string>)
    ensures AddCorners(Concat(m0, m), p, refs) == Concat(m0, AddCorners(m, p, refs))
    decreases |refs|
  {
    if refs != [] {
      AddCornerShift(m0, m, p, refs[0]);
      AddCornersShift(m0, AddCorner(m, p, refs[0]), p, refs[1..]);
    }
  }

  lemma StepLineShift(p: PoolState, m0: Mesh, m: Mesh, line: string, num: string -> real)
    ensures StepLine(ParseState(p, Concat(m0, m)), line, num)
         == ParseState(StepLine(ParseState(p, m), line, num).pools,
                       Concat(m0, StepLine(ParseState(p, m), line, num).mesh))
  {
    match Classify(line)
    case FaceRecord(refs) =>
      AddCornersShift(m0, m, p, FanCorners(refs));
    case _ =>
  }

  /**
   * Parsing lines into a mesh that already holds `m0` gives the same pools as parsing
   * them into an empty one, and `m0` followed by the lists that parse appends.
   */
  lemma {:induction false} RunLinesShift(p: PoolState, m0: Mesh, m: Mesh, lines: seq<string>, num: string -> real)
    ensures RunLines(ParseState(p, Concat(m0, m)), lines, num)
         == ParseState(RunLines(ParseState(p, m), lines, num).pools,
                       Concat(m0, RunLines(ParseState(p, m), lines, num).mesh))
  {
    if lines != [] {
      var init := lines[..|lines| - 1];
      RunLinesShift(p, m0, m, init, num);
      var r := RunLines(ParseState(p, m), init, num);
      StepLineShift(r.pools, m0, r.mesh, lines[|lines| - 1], num);
    }
  }

  /** Parsing `a + b` is parsing `a` and then `b`. */
  lemma {:induction false} RunLinesAppend(s: ParseState, a: seq<string>, b: seq<string>, num: string -> real)
    ensures RunLines(s, a + b, num) == RunLines(RunLines(s, a, num), b, num)
  {
    if b == [] {
      assert a + b == a;
    } else {
      RunLinesAppend(s, a, b[..|b| - 1], num);
      assert (a + b)[..|a + b| - 1] == a + b[..|b| - 1];
    }
  }

  /** One line only ever appends to the pools. */
  lemma StepLineGrows(s: ParseState, line: string, num: string -> real)
    ensures Grows(s.pools, StepLine(s, line, num).pools)
  {
  }

  /** The shared pools only grow while a text is parsed. */
  lemma {:induction false} RunLinesGrows(s: ParseState, lines: seq<string>, num: string -> real)
    ensures Grows(s.pools, RunLines(s, lines, num).pools)
  {
    if lines != [] {
      var r := RunLines(s, lines[..|lines| - 1], num);
      RunLinesGrows(s, lines[..|lines| - 1], num);
      StepLineGrows(r, lines[|lines| - 1], num);
      var q := RunLines(s, lines, num).pools;
      assert s.pools.positions <= r.pools.positions <= q.positions;
      assert s.pools.normals <= r.pools.normals <= q.normals;
      assert s.pools.texcoords <= r.pools.texcoords <= q.texcoords;
    }
  }

  /** An object line matches none of the four patterns of `parseOBJ`. */
  lemma ObjectLineIsOther(line: string)
    requires IsObjectLine(line)
    ensures Classify(line) == Other
  {
    assert line[..2][0] == 'o';
  }

  /** Object lines change nothing in `parseOBJ`. */
  lemma {:induction false} RunLinesUnmarked(s: ParseState, lines: seq<string>, num: string -> real)
    ensures RunLines(s, Unmarked(lines), num) == RunLines(s, lines, num)
  {
    if lines != [] {
      var init := lines[..|lines| - 1];
      var last := lines[|lines| - 1];
      RunLinesUnmarked(s, init, num);
      if IsObjectLine(last) {
        ObjectLineIsOther(last);
        assert Unmarked(lines) == Unmarked(init);
      } else {
        var u := Unmarked(init) + [last];
        assert Unmarked(lines) == u;
        assert u[..|u| - 1] == Unmarked(init);
      }
    }
  }

  // ---------------------------------------------------------------------------
  // Groups of lines between object lines

  /** The scan so far, laid end to end, is the non-object lines read so far. */
  lemma {:induction false} ScanLinesFlatten(lines: seq<string>)
    ensures Flatten(ScanLines(lines).done) + ScanLines(lines).current == Unmarked(lines)
  {
    if lines != [] {
      var init := lines[..|lines| - 1];
      var last := lines[|lines| - 1];
      ScanLinesFlatten(init);
      var s := ScanLines(init);
      if IsObjectLine(last) {
        FlattenPending(s.done, s.current);
      } else {
        assert Flatten(s.done) + (s.current + [last]) == Flatten(s.done) + s.current + [last];
      }
    }
  }

  lemma FlattenPending(done: seq<seq<string>>, current: seq<string>)
    ensures Flatten(done + Pending(current)) == Flatten(done) + current
  {
    if current == [] {
      assert done + Pending(current) == done;
    } else {
      assert (done + [current])[..|done|] == done;
    }
  }

  /** The groups handed to `parseOBJ`, laid end to end, are exactly the lines that are not object lines. */
  lemma FlattenObjectGroups(lines: seq<string>)
    ensures Flatten(ObjectGroups(lines)) == Unmarked(lines)
  {
    ScanLinesFlatten(lines);
    FlattenPending(ScanLines(lines).done, ScanLines(lines).current);
  }

  /** Every group holds at least one line and no object line. */
  predicate WellGrouped(s: Scan)
  {
    && (forall k :: 0 <= k < |s.done| ==> s.done[k] != [])
    && (forall k, j :: 0 <= k < |s.done| && 0 <= j < |s.done[k]| ==> !IsObjectLine(s.done[k][j]))
    && (forall j :: 0 <= j < |s.current| ==> !IsObjectLine(s.current[j]))
  }

  lemma {:induction false} ScanLinesWellGrouped(lines: seq<string>)
    ensures WellGrouped(ScanLines(lines))
  {
    if lines != [] {
      ScanLinesWellGrouped(lines[..|lines| - 1]);
    }
  }

  /** `parseOBJ` is never called on an empty group, and no group holds an object line. */
  lemma GroupsAreNonEmptyAndUnmarked(lines: seq<string>)
    ensures forall k :: 0 <= k < |ObjectGroups(lines)| ==> ObjectGroups(lines)[k] != []
    ensures forall k, j :: 0 <= k < |ObjectGroups(lines)| && 0 <= j < |ObjectGroups(lines)[k]|
              ==> !IsObjectLine(ObjectGroups(lines)[k][j])
  {
    ScanLinesWellGrouped(lines);
    var s := ScanLines(lines);
    assert WellGrouped(Scan(s.done + Pending(s.current), []));
  }

  /** Reading lines without object lines only buffers them. */
  lemma {:induction false} ScanLinesAppendUnmarked(a: seq<string>, b: seq<string>)
    requires forall j :: 0 <= j < |b| ==> !IsObjectLine(b[j])
    ensures ScanLines(a + b) == Scan(ScanLines(a).done, ScanLines(a).current + b)
  {
    if b == [] {
      assert a + b == a;
    } else {
      ScanLinesAppendUnmarked(a, b[..|b| - 1]);
      ScanUnmarkedStep(a, b);
    }
  }

  lemma ScanUnmarkedStep(a: seq<string>, b: seq<string>)
    requires b != [] && !IsObjectLine(b[|b| - 1])
    requires ScanLines(a + b[..|b| - 1]) == Scan(ScanLines(a).done, ScanLines(a).current + b[..|b| - 1])
    ensures ScanLines(a + b) == Scan(ScanLines(a).done, ScanLines(a).current + b)
  {
    var s := ScanLines(a);
    SplitLast(a, b);
    SplitLast(s.current, b);
    BufferLine(a + b[..|b| - 1], b[|b| - 1], s.done, s.current + b[..|b| - 1]);
  }

  /** Reading a line that is not an object line after a scan appends it to the buffer. */
  lemma BufferLine(prefix: seq<string>, x: string, done: seq<seq<string>>, current: seq<string>)
    requires !IsObjectLine(x)
    requires ScanLines(prefix) == Scan(done, current)
    ensures ScanLines(prefix + [x]) == Scan(done, current + [x])
  {
    ScanLinesAppendLine(prefix, x);
  }

  lemma SplitLast<T>(a: seq<T>, b: seq<T>)
    requires b != []
    ensures a + b == (a + b[..|b| - 1]) + [b[|b| - 1]]
  {
    assert b == b[..|b| - 1] + [b[|b| - 1]];
  }

  lemma ScanLinesAppendLine(a: seq<string>, x: string)
    ensures ScanLines(a + [x]) == ScanLine(ScanLines(a), x)
  {
    assert (a + [x])[..|a|] == a;
  }

  /** Reading an object line closes the buffer. */
  lemma ScanLinesAppendMarker(a: seq<string>, o: string)
    requires IsObjectLine(o)
    ensures ScanLines(a + [o]) == Scan(ScanLines(a).done + Pending(ScanLines(a).current), [])
  {
    assert (a + [o])[..|a|] == a;
  }

  /** A text without object lines is one object made of all its lines, the empty text among them. */
  lemma UnmarkedTextIsOneObject(lines: seq<string>)
    requires lines != []
    requires forall j :: 0 <= j < |lines| ==> !IsObjectLine(lines[j])
    ensures ObjectGroups(lines) == [lines]
  {
    ScanLinesAppendUnmarked([], lines);
    assert [] + lines == lines;
  }

  /** The empty text splits into one empty line, so it still makes one (empty) object. */
  lemma EmptyTextIsOneObject()
    ensures ObjectGroups(Split("", '\n')) == [[""]]
  {
    UnmarkedTextIsOneObject([""]);
  }

  /** A text of object lines only makes no object. */
  lemma {:induction false} OnlyObjectLinesMakeNoObject(lines: seq<string>)
    requires forall j :: 0 <= j < |lines| ==> IsObjectLine(lines[j])
    ensures ScanLines(lines) == Scan([], [])
    ensures ObjectGroups(lines) == []
  {
    if lines != [] {
      OnlyObjectLinesMakeNoObject(lines[..|lines| - 1]);
    }
  }

  /**
   * A text of object lines that ends in a newline splits with a final empty line, which
   * is buffered as a lone newline: that makes one object, built from no content.
   */
  lemma TrailingNewlineMakesEmptyObject(lines: seq<string>)
    requires forall j :: 0 <= j < |lines| ==> IsObjectLine(lines[j])
    ensures ObjectGroups(lines + [""]) == [[""]]
  {
    OnlyObjectLinesMakeNoObject(lines);
    assert (lines + [""])[..|lines|] == lines;
    assert ScanLines(lines + [""]) == ScanLine(Scan([], []), "") == Scan([], [""]);
  }

  /** `o a` followed by a newline: the split gives `["o a", ""]` and so one empty object. */
  lemma ObjectLineWithNewline(m: string)
    requires IsObjectLine(m) && '\n' !in m
    ensures Split(m + "\n", '\n') == [m, ""]
    ensures ObjectGroups(Split(m + "\n", '\n')) == [[""]]
  {
    var text := m + "\n";
    assert text[..|m|] == m && text[|m| + 1..] == "";
    SplitAtOnly(text, '\n', |m|);
    TrailingNewlineMakesEmptyObject([m]);
    assert [m] + [""] == [m, ""];
  }

  /** `o A`, block one, `o B`, block two: two objects, one per block, the object lines dropped. */
  lemma TwoObjects(o1: string, b1: seq<string>, o2: string, b2: seq<string>)
    requires IsObjectLine(o1) && IsObjectLine(o2)
    requires b1 != [] && b2 != []
    requires forall j :: 0 <= j < |b1| ==> !IsObjectLine(b1[j])
    requires forall j :: 0 <= j < |b2| ==> !IsObjectLine(b2[j])
    ensures ObjectGroups([o1] + b1 + [o2] + b2) == [b1, b2]
  {
    ScanLinesAppendMarker([], o1);
    assert [] + [o1] == [o1];
    assert ScanLines([o1]) == Scan([], []);
    ScanLinesAppendUnmarked([o1], b1);
    assert ScanLines([o1] + b1) == Scan([], b1);
    ScanLinesAppendMarker([o1] + b1, o2);
    assert ScanLines([o1] + b1 + [o2]) == Scan([b1], []);
    ScanLinesAppendUnmarked([o1] + b1 + [o2], b2);
    assert ScanLines([o1] + b1 + [o2] + b2) == Scan([b1], b2);
  }

  // ---------------------------------------------------------------------------
  // parseOBJs against parseOBJ

  /** Parsing groups one after another on shared pools is one parse of all their lines, cut into meshes. */
  lemma {:induction false} ParseGroupsIsOneParse(p: PoolState, groups: seq<seq<string>>, num: string -> real)
    ensures |ParseGroups(p, groups, num).meshes| == |groups|
    ensures RunLines(ParseState(p, EmptyMesh), Flatten(groups), num)
         == ParseState(ParseGroups(p, groups, num).pools, ConcatAll(ParseGroups(p, groups, num).meshes))
  {
    if groups != [] {
      var init := groups[..|groups| - 1];
      var g := groups[|groups| - 1];
      ParseGroupsIsOneParse(p, init, num);
      var prev := ParseGroups(p, init, num);
      var all := ConcatAll(prev.meshes);
      RunLinesAppend(ParseState(p, EmptyMesh), Flatten(init), g, num);
      assert Concat(all, EmptyMesh) == all;
      RunLinesShift(prev.pools, all, EmptyMesh, g, num);
      var last := RunLines(ParseState(prev.pools, EmptyMesh), g, num);
      assert (prev.meshes + [last.mesh])[..|prev.meshes|] == prev.meshes;
    }
  }

  /**
   * `parseOBJs` and `parseOBJ` on the same text leave the same pools, and the meshes of the
   * separate objects, laid end to end, are the mesh of the single object.
   */
  lemma SeparateObjectsPartitionOneParse(p: PoolState, lines: seq<string>, num: string -> real)
    ensures RunLines(ParseState(p, EmptyMesh), lines, num)
         == ParseState(ParseGroups(p, ObjectGroups(lines), num).pools,
                       ConcatAll(ParseGroups(p, ObjectGroups(lines), num).meshes))
  {
    ParseGroupsIsOneParse(p, ObjectGroups(lines), num);
    FlattenObjectGroups(lines);
    RunLinesUnmarked(ParseState(p, EmptyMesh), lines, num);
  }

  /** One object per group, and the shared pools only grow across the groups. */
  lemma ParseGroupsGrows(p: PoolState, groups: seq<seq<string>>, num: string -> real)
    ensures |ParseGroups(p, groups, num).meshes| == |groups|
    ensures Grows(p, ParseGroups(p, groups, num).pools)
  {
    ParseGroupsIsOneParse(p, groups, num);
    RunLinesGrows(ParseState(p, EmptyMesh), Flatten(groups), num);
  }

  /**
   * Because the pools are shared and only grow, a position or normal index that resolves
   * before some groups are parsed resolves to the same entry after them: a face in a later
   * object sees the vertices of earlier objects unchanged.
   */
  lemma ParseGroupsKeepsReferences(p: PoolState, groups: seq<seq<string>>, num: string -> real, index: int)
    ensures Lookup(p.positions, index).Defined? ==>
      Lookup(ParseGroups(p, groups, num).pools.positions, index) == Lookup(p.positions, index)
    ensures Lookup(p.normals, index).Defined? ==>
      Lookup(ParseGroups(p, groups, num).pools.normals, index) == Lookup(p.normals, index)
  {
    var q := ParseGroups(p, groups, num).pools;
    ParseGroupsGrows(p, groups, num);
    if Lookup(p.positions, index).Defined? {
      LookupStable(p.positions, q.positions, index);
    }
    if Lookup(p.normals, index).Defined? {
      LookupStable(p.normals, q.normals, index);
    }
  }

  // ---------------------------------------------------------------------------
  // Texture coordinates

  /** The mesh a parse builds, and its position and normal pools, do not depend on the texture-coordinate pool. */
  lemma {:induction false} AddCornersIgnoresTexcoords(m: Mesh, p: PoolState, q: PoolState, refs: seq<string>)
    requires p.positions == q.positions && p.normals == q.normals
    ensures AddCorners(m, p, refs) == AddCorners(m, q, refs)
    decreases |refs|
  {
    if refs != [] {
      AddCornersIgnoresTexcoords(AddCorner(m, p, refs[0]), p, q, refs[1..]);
    }
  }

  lemma {:induction false} RunLinesIgnoresTexcoords(p: PoolState, q: PoolState, m: Mesh, lines: seq<string>, num: string -> real)
    requires p.positions == q.positions && p.normals == q.normals
    ensures RunLines(ParseState(p, m), lines, num).mesh == RunLines(ParseState(q, m), lines, num).mesh
    ensures RunLines(ParseState(p, m), lines, num).pools.positions == RunLines(ParseState(q, m), lines, num).pools.positions
    ensures RunLines(ParseState(p, m), lines, num).pools.normals == RunLines(ParseState(q, m), lines, num).pools.normals
  {
    if lines != [] {
      var init := lines[..|lines| - 1];
      RunLinesIgnoresTexcoords(p, q, m, init, num);
      var r := RunLines(ParseState(p, m), init, num);
      var t := RunLines(ParseState(q, m), init, num);
      match Classify(lines[|lines| - 1])
      case FaceRecord(refs) =>
        AddCornersIgnoresTexcoords(r.mesh, r.pools, t.pools, FanCorners(refs));
      case _ =>
    }
  }

  // ---------------------------------------------------------------------------
  // Counts and colours

  /** How many references satisfy `f`. */
  function CountIf(refs: seq<string>, f: string -> bool): (n: nat)
    ensures n <= |refs|
  {
    if refs == [] then 0 else (if f(refs[0]) then 1 else 0) + CountIf(refs[1..], f)
  }

  lemma {:induction false} CountIfAppend(a: seq<string>, b: seq<string>, f: string -> bool)
    ensures CountIf(a + b, f) == CountIf(a, f) + CountIf(b, f)
  {
    if a != [] {
      assert (a + b)[1..] == a[1..] + b;
      CountIfAppend(a[1..], b, f);
    } else {
      assert a + b == b;
    }
  }

  /** The corners a line hands to `addVertex`: the fan of a face line, nothing for any other line. */
  function LineCorners(line: string): seq<string>
  {
    match Classify(line)
    case FaceRecord(refs) => FanCorners(refs)
    case _ => []
  }

  /** The corners of every face line, in the order `addVertex` sees them. */
  function FaceCorners(lines: seq<string>): seq<string>
  {
    if lines == [] then [] else FaceCorners(lines[..|lines| - 1]) + LineCorners(lines[|lines| - 1])
  }

  /** What `addVertex` appends over a list of corners: one position per numeric first component, one normal per numeric third, one red colour per corner with a `/`. */
  lemma {:induction false} AddCornersCounts(m: Mesh, p: PoolState, refs: seq<string>)
    ensures |AddCorners(m, p, refs).positions| == |m.positions| + CountIf(refs, HasPositionIndex)
    ensures |AddCorners(m, p, refs).normals| == |m.normals| + CountIf(refs, HasNormalIndex)
    ensures |AddCorners(m, p, refs).colors| == |m.colors| + CountIf(refs, EmitsColor)
    ensures AllColored(m.colors, Red) ==> AllColored(AddCorners(m, p, refs).colors, Red)
    decreases |refs|
  {
    if refs != [] {
      AddCornersCounts(AddCorner(m, p, refs[0]), p, refs[1..]);
    }
  }

  lemma StepLineCounts(s: ParseState, line: string, num: string -> real)
    ensures |StepLine(s, line, num).mesh.positions| == |s.mesh.positions| + CountIf(LineCorners(line), HasPositionIndex)
    ensures |StepLine(s, line, num).mesh.normals| == |s.mesh.normals| + CountIf(LineCorners(line), HasNormalIndex)
    ensures |StepLine(s, line, num).mesh.colors| == |s.mesh.colors| + CountIf(LineCorners(line), EmitsColor)
    ensures AllColored(s.mesh.colors, Red) ==> AllColored(StepLine(s, line, num).mesh.colors, Red)
  {
    match Classify(line)
    case FaceRecord(refs) =>
      AddCornersCounts(s.mesh, s.pools, FanCorners(refs));
    case _ =>
  }

  /** The list lengths of a parsed mesh follow from its face corners alone, and every colour is red. */
  lemma {:induction false} RunLinesCounts(s: ParseState, lines: seq<string>, num: string -> real)
    ensures |RunLines(s, lines, num).mesh.positions| == |s.mesh.positions| + CountIf(FaceCorners(lines), HasPositionIndex)
    ensures |RunLines(s, lines, num).mesh.normals| == |s.mesh.normals| + CountIf(FaceCorners(lines), HasNormalIndex)
    ensures |RunLines(s, lines, num).mesh.colors| == |s.mesh.colors| + CountIf(FaceCorners(lines), EmitsColor)
    ensures AllColored(s.mesh.colors, Red) ==> AllColored(RunLines(s, lines, num).mesh.colors, Red)
  {
    if lines != [] {
      var init := lines[..|lines| - 1];
      var last := lines[|lines| - 1];
      RunLinesCounts(s, init, num);
      StepLineCounts(RunLines(s, init, num), last, num);
      CountIfAppend(FaceCorners(init), LineCorners(last), HasPositionIndex);
      CountIfAppend(FaceCorners(init), LineCorners(last), HasNormalIndex);
      CountIfAppend(FaceCorners(init), LineCorners(last), EmitsColor);
    }
  }

  /** Every object `parseOBJs` builds is entirely red. */
  lemma {:induction false} ParsedObjectsAreRed(p: PoolState, groups: seq<seq<string>>, num: string -> real)
    ensures forall k :: 0 <= k < |ParseGroups(p, groups, num).meshes| ==>
              AllColored(ParseGroups(p, groups, num).meshes[k].colors, Red)
  {
    if groups != [] {
      ParsedObjectsAreRed(p, groups[..|groups| - 1], num);
      var prev := ParseGroups(p, groups[..|groups| - 1], num);
      RunLinesCounts(ParseState(prev.pools, EmptyMesh), groups[|groups| - 1], num);
    }
  }

  /** When every corner has a `/` and a numeric first component, there is one colour per position. */
  lemma {:induction false} ColorsMatchPositions(refs: seq<string>)
    requires forall k :: 0 <= k < |refs| ==> '/' in refs[k] && HasPositionIndex(refs[k])
    ensures CountIf(refs, EmitsColor) == CountIf(refs, HasPositionIndex) == |refs|
  {
    if refs != [] {
      EmitsColorIffSlash(refs[0]);
      ColorsMatchPositions(refs[1..]);
    }
  }

  /** The face line `f a b c` of three one-digit indices. */
  function PlainFace(a: char, b: char, c: char): string
  {
    ['f', ' ', a, ' ', b, ' ', c]
  }

  lemma SplitPlainFace(a: char, b: char, c: char)
    requires a != ' ' && b != ' ' && c != ' '
    ensures Split(PlainFace(a, b, c), ' ') == [['f'], [a], [b], [c]]
  {
    SplitWithoutSeparator([c], ' ');
    assert [b, ' ', c] == [b] + [' '] + [c];
    SplitConcatAt([b], [c], ' ');
    assert [a, ' ', b, ' ', c] == [a] + [' '] + [b, ' ', c];
    SplitConcatAt([a], [b, ' ', c], ' ');
    assert PlainFace(a, b, c) == ['f'] + [' '] + [a, ' ', b, ' ', c];
    SplitConcatAt(['f'], [a, ' ', b, ' ', c], ' ');
  }

  /** `f a b c` is a face line whose corners are `a`, `b` and `c`. */
  lemma PlainFaceCorners(a: char, b: char, c: char)
    requires a != ' ' && b != ' ' && c != ' '
    ensures Classify(PlainFace(a, b, c)) == FaceRecord([[a], [b], [c]])
  {
    SplitPlainFace(a, b, c);
    assert IsFaceLine(PlainFace(a, b, c));
  }

  lemma FaceStep(s: ParseState, line: string, refs: seq<string>, num: string -> real)
    requires Classify(line) == FaceRecord(refs)
    ensures StepLine(s, line, num) == s.(mesh := AddCorners(s.mesh, s.pools, FanCorners(refs)))
  {
  }

  /** A corner that is a single digit `c` appends position `c` and neither a normal nor a colour. */
  lemma DigitCorner(m: Mesh, p: PoolState, c: char)
    requires IsDecimalDigit(c)
    ensures AddCorner(m, p, [c]) == Mesh(m.positions + [Lookup(p.positions, DigitValue(c))], m.normals, m.colors)
  {
    SplitWithoutSeparator([c], '/');
    ParseIntOfDigit(c);
  }

  /**
   * A face whose corners are plain one-digit indices, such as `f 1 2 3` (see
   * `PlainFaceCorners`), appends its three positions and no normal and no colour, so the
   * mesh ends up with more positions than colours.
   */
  lemma PlainFaceGetsNoColor(s: ParseState, line: string, a: char, b: char, c: char, num: string -> real)
    requires IsDecimalDigit(a) && IsDecimalDigit(b) && IsDecimalDigit(c)
    requires Classify(line) == FaceRecord([[a], [b], [c]])
    ensures StepLine(s, line, num)
         == ParseState(s.pools,
                       Mesh(s.mesh.positions + [Lookup(s.pools.positions, DigitValue(a)),
                                                Lookup(s.pools.positions, DigitValue(b)),
                                                Lookup(s.pools.positions, DigitValue(c))],
                            s.mesh.normals, s.mesh.colors))
  {
    var refs := [[a], [b], [c]];
    TriangleFan([a], [b], [c]);
    FaceStep(s, line, refs, num);
    AddCorners3(s.mesh, s.pools, [], [a], [b], [c]);
    assert [] + refs == refs;
    var m1 := AddCorner(s.mesh, s.pools, [a]);
    var m2 := AddCorner(m1, s.pools, [b]);
    var m3 := AddCorner(m2, s.pools, [c]);
    assert AddCorners(s.mesh, s.pools, []) == s.mesh;
    assert AddCorners(s.mesh, s.pools, refs) == m3;
    DigitCorner(s.mesh, s.pools, a);
    DigitCorner(m1, s.pools, b);
    DigitCorner(m2, s.pools, c);
    SnocThree(s.mesh.positions, Lookup(s.pools.positions, DigitValue(a)),
              Lookup(s.pools.positions, DigitValue(b)), Lookup(s.pools.positions, DigitValue(c)));
  }

  lemma SnocThree<T>(s: seq<T>, x: T, y: T, z: T)
    ensures s + [x] + [y] + [z] == s + [x, y, z]
  {
  }

  // ---------------------------------------------------------------------------
  // Single corners and faces

  /**
   * A corner `p/t/n` whose first and third components are numbers `i` and `j` appends
   * position `i`, normal `j` (both 1-based, `undefined` when out of range) and red.
   */
  lemma SlashedCornerResolves(m: Mesh, pools: PoolState, p: string, t: string, n: string, i: int, j: int)
    requires '/' !in p && '/' !in t && '/' !in n
    requires ParseInt(p) == Some(i) && ParseInt(n) == Some(j)
    ensures AddCorner(m, pools, p + "/" + t + "/" + n)
         == Mesh(m.positions + [Lookup(pools.positions, i)], m.normals + [Lookup(pools.normals, j)], m.colors + [Red])
  {
    SlashedCornerShape(p, t, n);
  }

  /** A triangle `a b c` is handed on as it is. */
  lemma TriangleFan(a: string, b: string, c: string)
    ensures FanCorners([a, b, c]) == [a, b, c]
  {
    assert FanPrefix([a, b, c], 1) == [] + [a, b, c];
  }

  /** A quad `a b c d` becomes the triangles `a b c` and `a c d`. */
  lemma QuadFan(a: string, b: string, c: string, d: string)
    ensures FanCorners([a, b, c, d]) == [a, b, c, a, c, d]
  {
    var refs := [a, b, c, d];
    assert FanPrefix(refs, 1) == [a, b, c];
    assert FanPrefix(refs, 2) == [a, b, c] + [a, c, d];
  }

  /**
   * A `v x y z` line appends one position: x and z divided by 10, y lowered by 7 and
   * divided by 10, w one. Nothing else in the state changes.
   */
  lemma PositionLineStored(s: ParseState, w1: string, x: string, w2: string, y: string, w3: string, z: string,
                           tail: string, num: string -> real)
    requires IsSpaceRun(w1) && IsSpaceRun(w2) && IsSpaceRun(w3)
    requires IsNumberToken(x) && IsNumberToken(y) && IsNumberToken(z)
    requires ClosesToken(tail)
    ensures StepLine(s, "v" + (w1 + x + w2 + y + w3 + z + tail), num) ==
      s.(pools := s.pools.(positions := s.pools.positions +
        [Vec4(num(x) / 10.0, (num(y) - 7.0) / 10.0, num(z) / 10.0, 1.0)]))
  {
    PositionLine(w1, x, w2, y, w3, z, tail);
    PositionRecordStored(s, "v" + (w1 + x + w2 + y + w3 + z + tail), x, y, z, num);
  }

  lemma PositionRecordStored(s: ParseState, line: string, x: string, y: string, z: string, num: string -> real)
    requires Classify(line) == PositionRecord(x, y, z)
    ensures StepLine(s, line, num) ==
      s.(pools := s.pools.(positions := s.pools.positions +
        [Vec4(num(x) / 10.0, (num(y) - 7.0) / 10.0, num(z) / 10.0, 1.0)]))
  {
  }

  /** A `vn x y z` line appends the normal `(x, y, z)` unscaled; nothing else changes. */
  lemma NormalLineStored(s: ParseState, w1: string, x: string, w2: string, y: string, w3: string, z: string,
                         tail: string, num: string -> real)
    requires IsSpaceRun(w1) && IsSpaceRun(w2) && IsSpaceRun(w3)
    requires IsNumberToken(x) && IsNumberToken(y) && IsNumberToken(z)
    requires ClosesToken(tail)
    ensures StepLine(s, "vn" + (w1 + x + w2 + y + w3 + z + tail), num) ==
      s.(pools := s.pools.(normals := s.pools.normals + [Vec3(num(x), num(y), num(z))]))
  {
    NormalLine(w1, x, w2, y, w3, z, tail);
  }

  /** A `vt u v` line appends the texture coordinate `(u, 1 - v)`; nothing else changes. */
  lemma TexcoordLineStored(s: ParseState, w1: string, u: string, w2: string, v: string, tail: string,
                           num: string -> real)
    requires IsSpaceRun(w1) && IsSpaceRun(w2)
    requires IsNumberToken(u) && IsNumberToken(v)
    requires ClosesToken(tail)
    ensures StepLine(s, "vt" + (w1 + u + w2 + v + tail), num) ==
      s.(pools := s.pools.(texcoords := s.pools.texcoords + [Vec2(num(u), 1.0 - num(v))]))
  {
    TexcoordLine(w1, u, w2, v, tail);
  }

  /** The vertex `v 10 17 0` lands at `(1, 1, 0)`. */
  lemma PositionLineExample(s: ParseState, num: string -> real)
    requires num("10") == 10.0 && num("17") == 17.0 && num("0") == 0.0
    ensures StepLine(s, "v 10 17 0", num) ==
      s.(pools := s.pools.(positions := s.pools.positions + [Vec4(1.0, 1.0, 0.0, 1.0)]))
  {
    assert "v 10 17 0" == "v" + (" " + "10" + " " + "17" + " " + "0" + "");
    PositionLineStored(s, " ", "10", " ", "17", " ", "0", "", num);
  }

  /** A `v` line with two numbers only matches no pattern and changes nothing. */
  lemma ShortPositionLineIgnored(s: ParseState, num: string -> real)
    ensures StepLine(s, "v 1 2", num) == s
  {
    assert Classify("v 1 2") == Other;
  }

  /** A `v` line whose coordinates are not numbers matches no pattern and changes nothing. */
  lemma NonNumericPositionLineIgnored(s: ParseState, num: string -> real)
    ensures StepLine(s, "v x y z", num) == s
  {
    var line := "v x y z";
    assert line[1..] == " " + "x y z";
    TakeWhileRun(" ", "x y z", IsSpace);
    TakeWhileRun("", "x y z", IsNumberChar);
    assert Captures(line[1..], 3) == None;
    assert line[..2] == "v ";
    assert Classify(line) == Other;
  }

  /** Any `v` line that is not `vn` or `vt` and does not match the position pattern is skipped. */
  lemma UnmatchedPositionLineIgnored(s: ParseState, line: string, num: string -> real)
    requires |line| >= 1 && line[0] == 'v'
    requires |line| < 2 || (line[..2] != "vn" && line[..2] != "vt")
    requires forall x, y, z :: !SpacedTokens(line[1..], [x, y, z])
    ensures StepLine(s, line, num) == s
  {
    var r := Classify(line);
    if r.PositionRecord? {
      ClassifyPositionIff(line, r.x, r.y, r.z);
    }
  }
}
