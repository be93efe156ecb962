/**
 * The OBJ loader of ferrisWheel.js: the file-global vertex pools, `addVertex`,
 * `parseOBJ`, `parseOBJs` and the non-network part of `loadOBJ`.
 *
 * Each imperative operation is proved against a specification function on values
 * (`AddCorner`, `RunLines`, `ObjectGroups`, `ParseGroups`); the lemmas below them state
 * what the loader promises about those functions: how many corners, colours, positions
 * and objects come out, which pool entry a reference picks, and that the pools are
 * shared by all objects of one load and only grow.
 */
module ObjParser {
  import opened Text
  import opened Geometry
  import opened ObjRecords

  /** The divisor applied to every position coordinate. */
  const Downscale: real := 10.0
  /** Subtracted from a position's y before scaling. */
  const VerticalOffset: real := 7.0

  datatype PoolState = PoolState(positions: seq<Vec4>, normals: seq<Vec3>, texcoords: seq<Vec2>)

  const EmptyPools := PoolState([], [], [])

  /** Every pool of `p` is a prefix of the same pool of `q`. */
  predicate Grows(p: PoolState, q: PoolState)
  {
    p.positions <= q.positions && p.normals <= q.normals && p.texcoords <= q.texcoords
  }

  /** The file-global pools `objPositions`, `objNormals` and `objTexcoords`. */
  class Pools {
    var positions: seq<Vec4>
    var normals: seq<Vec3>
    var texcoords: seq<Vec2>

    constructor ()
      ensures State() == EmptyPools
    {
      positions, normals, texcoords := [], [], [];
    }

    function State(): PoolState
      reads this
    {
      PoolState(positions, normals, texcoords)
    }

    /** The reset at the start of every `loadOBJ` call. */
    method Reset()
      modifies this
      ensures State() == EmptyPools
    {
      positions, normals, texcoords := [], [], [];
    }
  }

  // ---------------------------------------------------------------------------
  // Specification of one parse, on values

  /** What a parse has built so far: the pools and the object's mesh. */
  datatype ParseState = ParseState(pools: PoolState, mesh: Mesh)

  /** The position a `v` record stores, from the numbers its three tokens denote. */
  function PositionOf(x: string, y: string, z: string, num: string -> real): Vec4
  {
    Vec4(num(x) / Downscale, (num(y) - VerticalOffset) / Downscale, num(z) / Downscale, 1.0)
  }

  /** The texture coordinate a `vt` record stores: v flipped to 1 - v. */
  function TexcoordOf(u: string, v: string, num: string -> real): Vec2
  {
    Vec2(num(u), 1.0 - num(v))
  }

  predicate HasPositionIndex(ref: string) { PositionIndex(ref).Some? }

  predicate HasNormalIndex(ref: string) { NormalIndex(ref).Some? }

  /**
   * The effect of `addVertex(ref)`: a numeric first component appends the position pool
   * entry it names, a second component of any kind appends red, a numeric third component
   * appends the normal pool entry it names. Texture coordinates are never copied.
   */
  function AddCorner(m: Mesh, p: PoolState, ref: string): Mesh
  {
    var pos := PositionIndex(ref);
    var nrm := NormalIndex(ref);
    Mesh(m.positions + (if pos.Some? then [Lookup(p.positions, pos.value)] else []),
         m.normals + (if nrm.Some? then [Lookup(p.normals, nrm.value)] else []),
         m.colors + (if EmitsColor(ref) then [Red] else []))
  }

  /** `addVertex` applied to each reference in turn. */
  function AddCorners(m: Mesh, p: PoolState, refs: seq<string>): Mesh
    decreases |refs|
  {
    if refs == [] then m else AddCorners(AddCorner(m, p, refs[0]), p, refs[1..])
  }

  /** The effect of one line of the loop in `parseOBJ`. */
  function StepLine(s: ParseState, line: string, num: string -> real): ParseState
  {
    match Classify(line)
    case PositionRecord(x, y, z) =>
      s.(pools := s.pools.(positions := s.pools.positions + [PositionOf(x, y, z, num)]))
    case NormalRecord(nx, ny, nz) =>
      s.(pools := s.pools.(normals := s.pools.normals + [Vec3(num(nx), num(ny), num(nz))]))
    case TexcoordRecord(u, v) =>
      s.(pools := s.pools.(texcoords := s.pools.texcoords + [TexcoordOf(u, v, num)]))
    case FaceRecord(refs) =>
      s.(mesh := AddCorners(s.mesh, s.pools, FanCorners(refs)))
    case Other =>
      s
  }

  /** The lines processed in order. */
  function RunLines(s: ParseState, lines: seq<string>, num: string -> real): ParseState
  {
    if lines == [] then s
    else StepLine(RunLines(s, lines[..|lines| - 1], num), lines[|lines| - 1], num)
  }

  /** A line on which `parseOBJ` does not throw: no corner of a face has a numeric fourth component. */
  predicate SafeLine(line: string)
  {
    IsFaceLine(line) ==> SafeFace(Split(line, ' ')[1..])
  }

  /** No fan corner of the face throws. */
  predicate SafeFace(refs: seq<string>)
  {
    forall k :: 0 <= k < |FanCorners(refs)| ==> !Throws(FanCorners(refs)[k])
  }

  predicate SafeText(text: string)
  {
    var lines := Split(text, '\n');
    forall k {:trigger SafeLine(lines[k])} :: 0 <= k < |lines| ==> SafeLine(lines[k])
  }

  // ---------------------------------------------------------------------------
  // parseOBJ

  /** `addVertex(vert)`: the `forEach` over the `/`-split components of one corner. */
  method AddVertex(g: GeometryObject, pools: Pools, vert: string)
    requires !Throws(vert)
    modifies g
    ensures g.Contents() == AddCorner(old(g.Contents()), pools.State(), vert)
    ensures g.theta == old(g.theta)
  {
    var ptn := Parts(vert);
    var i := 0;
    while i < |ptn|
      invariant 0 <= i <= |ptn|
      invariant g.theta == old(g.theta)
      invariant g.positions == old(g.positions) +
        (if i > 0 && ParseInt(ptn[0]).Some? then [Lookup(pools.positions, ParseInt(ptn[0]).value)] else [])
      invariant g.colors == old(g.colors) + (if i > 1 then [Red] else [])
      invariant g.normals == old(g.normals) +
        (if i > 2 && ParseInt(ptn[2]).Some? then [Lookup(pools.normals, ParseInt(ptn[2]).value)] else [])
    {
      var objIndex := ParseInt(ptn[i]);
      if i == 1 {
        g.colors := g.colors + [Red];
      } else if objIndex.Some? {
        if i == 0 {
          g.positions := g.positions + [Lookup(pools.positions, objIndex.value)];
        } else if i == 2 {
          g.normals := g.normals + [Lookup(pools.normals, objIndex.value)];
        } else {
          assert false;
        }
      }
      i := i + 1;
    }
  }

  /** The three corners of triangle `t` of a face whose fan corners all do not throw do not throw. */
  lemma CornersOfTriangleAreSafe(refs: seq<string>, t: nat)
    requires SafeFace(refs)
    requires t < Triangles(refs)
    ensures !Throws(refs[0]) && !Throws(refs[t + 1]) && !Throws(refs[t + 2])
  {
    FanCornersShape(refs);
    var c := FanCorners(refs);
    assert c[3 * t] == refs[0] && c[3 * t + 1] == refs[t + 1] && c[3 * t + 2] == refs[t + 2];
    assert !Throws(c[3 * t]) && !Throws(c[3 * t + 1]) && !Throws(c[3 * t + 2]);
  }

  /** The face branch of `parseOBJ`: the fan loop calling `addVertex` three times per triangle. */
  method AddFace(g: GeometryObject, pools: Pools, refs: seq<string>)
    requires SafeFace(refs)
    modifies g
    ensures g.Contents() == AddCorners(old(g.Contents()), pools.State(), FanCorners(refs))
    ensures g.theta == old(g.theta)
  {
    var numTriangles := |refs| - 2;
    var t := 0;
    while t < numTriangles
      invariant 0 <= t <= Triangles(refs)
      invariant g.theta == old(g.theta)
      invariant g.Contents() == AddCorners(old(g.Contents()), pools.State(), FanPrefix(refs, t))
    {
      ghost var m0 := g.Contents();
      ghost var p := pools.State();
      CornersOfTriangleAreSafe(refs, t);
      AddVertex(g, pools, refs[0]);
      AddVertex(g, pools, refs[t + 1]);
      AddVertex(g, pools, refs[t + 2]);
      assert g.Contents() == AddCorner(AddCorner(AddCorner(m0, p, refs[0]), p, refs[t + 1]), p, refs[t + 2]);
      AddCorners3(old(g.Contents()), p, FanPrefix(refs, t), refs[0], refs[t + 1], refs[t + 2]);
      assert FanPrefix(refs, t + 1) == FanPrefix(refs, t) + [refs[0], refs[t + 1], refs[t + 2]];
      t := t + 1;
    }
    assert t == Triangles(refs);
  }

  /** One turn of the line loop of `parseOBJ`: the first of the four patterns that matches decides. */
  method ParseLine(line: string, g: GeometryObject, pools: Pools, num: string -> real)
    requires SafeLine(line)
    modifies g, pools
    ensures ParseState(pools.State(), g.Contents())
         == StepLine(old(ParseState(pools.State(), g.Contents())), line, num)
    ensures g.theta == old(g.theta)
  {
    match Classify(line)
    case PositionRecord(x, y, z) =>
      pools.positions := pools.positions + [PositionOf(x, y, z, num)];
    case NormalRecord(nx, ny, nz) =>
      pools.normals := pools.normals + [Vec3(num(nx), num(ny), num(nz))];
    case TexcoordRecord(u, v) =>
      pools.texcoords := pools.texcoords + [TexcoordOf(u, v, num)];
    case FaceRecord(refs) =>
      AddFace(g, pools, refs);
    case Other =>
  }

  /** `parseOBJ(text)`: a fresh object built from the lines of `text`, the pools extended. */
  method ParseObj(text: string, pools: Pools, num: string -> real) returns (g: GeometryObject)
    requires SafeText(text)
    modifies pools
    ensures fresh(g) && g.theta == [0, 0, 0]
    ensures ParseState(pools.State(), g.Contents())
         == RunLines(ParseState(old(pools.State()), EmptyMesh), Split(text, '\n'), num)
  {
    g := new GeometryObject();
    var lines := Split(text, '\n');
    ghost var start := ParseState(pools.State(), EmptyMesh);
    var i := 0;
    while i < |lines|
      invariant 0 <= i <= |lines|
      invariant g.theta == [0, 0, 0]
      invariant ParseState(pools.State(), g.Contents()) == RunLines(start, lines[..i], num)
    {
      var line := lines[i];
      ParseLine(line, g, pools, num);
      assert lines[..i + 1][..i] == lines[..i];
      i := i + 1;
    }
    assert lines[..i] == lines;
  }

  lemma {:induction false} AddCornersAppend(m: Mesh, p: PoolState, a: seq<string>, b: seq<string>)
    ensures AddCorners(m, p, a + b) == AddCorners(AddCorners(m, p, a), p, b)
    decreases |a|
  {
    if a == [] {
      assert a + b == b;
    } else {
      assert (a + b)[1..] == a[1..] + b;
      AddCornersAppend(AddCorner(m, p, a[0]), p, a[1..], b);
    }
  }

  lemma AddCorners3(m: Mesh, p: PoolState, a: seq<string>, x: string, y: string, z: string)
    ensures AddCorners(m, p, a + [x, y, z])
         == AddCorner(AddCorner(AddCorner(AddCorners(m, p, a), p, x), p, y), p, z)
  {
    AddCornersAppend(m, p, a, [x, y, z]);
    var m0 := AddCorners(m, p, a);
    var m1 := AddCorner(m0, p, x);
    var m2 := AddCorner(m1, p, y);
    var m3 := AddCorner(m2, p, z);
    assert [x, y, z][1..] == [y, z];
    assert [y, z][1..] == [z];
    assert [z][1..] == [];
    assert AddCorners(m2, p, [z]) == AddCorners(m3, p, []);
    assert AddCorners(m1, p, [y, z]) == AddCorners(m2, p, [z]);
    assert AddCorners(m0, p, [x, y, z]) == AddCorners(m1, p, [y, z]);
  }

  // ---------------------------------------------------------------------------
  // parseOBJs

  /** The `^o\s` lines that start a new object. */
  predicate IsObjectLine(line: string)
  {
    |line| >= 2 && line[0] == 'o' && IsSpace(line[1])
  }

  /** What `parseOBJs` has read so far: the groups already handed on and the buffered lines. */
  datatype Scan = Scan(done: seq<seq<string>>, current: seq<string>)

  /** The buffered lines as a list of at most one group: a buffer is parsed only when not empty. */
  function Pending(current: seq<string>): seq<seq<string>>
  {
    if current == [] then [] else [current]
  }

  /** Reading one line: an object line closes the buffer and is itself dropped; any other line is buffered. */
  function ScanLine(s: Scan, line: string): Scan
  {
    if IsObjectLine(line) then Scan(s.done + Pending(s.current), [])
    else Scan(s.done, s.current + [line])
  }

  function ScanLines(lines: seq<string>): Scan
  {
    if lines == [] then Scan([], [])
    else ScanLine(ScanLines(lines[..|lines| - 1]), lines[|lines| - 1])
  }

  /** The groups of lines `parseOBJs` hands to `parseOBJ`, the last buffer closed by the end of the text. */
  function ObjectGroups(lines: seq<string>): seq<seq<string>>
  {
    ScanLines(lines).done + Pending(ScanLines(lines).current)
  }

  lemma ScanLinesSnoc(lines: seq<string>, i: nat)
    requires i < |lines|
    ensures ScanLines(lines[..i + 1]) == ScanLine(ScanLines(lines[..i]), lines[i])
  {
    assert lines[..i + 1][..i] == lines[..i];
  }

  /** The buffer text of a group: each line followed by a newline. */
  function JoinLines(group: seq<string>): string
  {
    if group == [] then "" else group[0] + "\n" + JoinLines(group[1..])
  }

  /** No object occurs twice in the list. */
  predicate Distinct(objs: seq<GeometryObject>)
  {
    forall j, k :: 0 <= j < k < |objs| ==> objs[j] != objs[k]
  }

  /** The objects and pools `parseOBJs` produces, one `parseOBJ` per group, in order, on shared pools. */
  datatype Parsed = Parsed(pools: PoolState, meshes: seq<Mesh>)

  function ParseGroups(p: PoolState, groups: seq<seq<string>>, num: string -> real): Parsed
  {
    if groups == [] then Parsed(p, [])
    else
      var prev := ParseGroups(p, groups[..|groups| - 1], num);
      var last := RunLines(ParseState(prev.pools, EmptyMesh), groups[|groups| - 1], num);
      Parsed(last.pools, prev.meshes + [last.mesh])
  }

  /**
   * The line buffer `currentObjString` of `parseOBJs` and the lines it holds: each line
   * is followed by a newline, and neither holds a newline nor throws when parsed.
   */
  predicate Buffers(current: string, group: seq<string>)
  {
    && current == JoinLines(group)
    && (current == [] <==> group == [])
    && (forall k :: 0 <= k < |group| ==> '\n' !in group[k])
    && (forall k {:trigger SafeLine(group[k])} :: 0 <= k < |group| ==> SafeLine(group[k]))
  }

  /** Lines of a text split at newlines, none of which throws when parsed. */
  predicate SafeLines(lines: seq<string>)
  {
    forall k {:trigger SafeLine(lines[k])} :: 0 <= k < |lines| ==> '\n' !in lines[k] && SafeLine(lines[k])
  }

  /** `parseOBJs(text)`: one fresh object per group of lines between object lines. */
  method ParseObjs(text: string, pools: Pools, num: string -> real) returns (objs: seq<GeometryObject>)
    requires SafeText(text)
    modifies pools
    ensures forall k :: 0 <= k < |objs| ==> fresh(objs[k]) && objs[k].theta == [0, 0, 0]
    ensures Distinct(objs)
    ensures Parsed(pools.State(), Meshes(objs))
         == ParseGroups(old(pools.State()), ObjectGroups(Split(text, '\n')), num)
  {
    var lines := Split(text, '\n');
    assert SafeLines(lines);
    objs := ReadLines(lines, pools, num);
  }

  /** The line loop of `parseOBJs` and the final flush of its buffer. */
  method ReadLines(lines: seq<string>, pools: Pools, num: string -> real) returns (objs: seq<GeometryObject>)
    requires SafeLines(lines)
    modifies pools
    ensures forall k :: 0 <= k < |objs| ==> fresh(objs[k]) && objs[k].theta == [0, 0, 0]
    ensures Distinct(objs)
    ensures Parsed(pools.State(), Meshes(objs)) == ParseGroups(old(pools.State()), ObjectGroups(lines), num)
  {
    ghost var start := pools.State();
    ghost var group: seq<string> := [];
    ghost var done: seq<seq<string>> := [];
    var current := "";
    objs := [];
    var i := 0;
    while i < |lines|
      invariant 0 <= i <= |lines|
      invariant Buffers(current, group)
      invariant ScanLines(lines[..i]) == Scan(done, group)
      invariant Parsed(pools.State(), Meshes(objs)) == ParseGroups(start, done, num)
      invariant forall k :: 0 <= k < |objs| ==> fresh(objs[k]) && objs[k].theta == [0, 0, 0]
      invariant Distinct(objs)
    {
      current, group, done, objs := ReadLine(lines, i, current, group, done, objs, pools, num, start);
      i := i + 1;
    }
    assert lines[..i] == lines;
    objs := ReadEnd(current, group, done, objs, pools, num, start);
  }

  /** One turn of the line loop of `parseOBJs`: an object line flushes a non-empty buffer, any other line is buffered. */
  method ReadLine(lines: seq<string>, i: nat, current: string, ghost group: seq<string>, ghost done: seq<seq<string>>,
                  objs: seq<GeometryObject>, pools: Pools, num: string -> real, ghost start: PoolState)
    returns (current': string, ghost group': seq<string>, ghost done': seq<seq<string>>, objs': seq<GeometryObject>)
    requires i < |lines|
    requires SafeLines(lines)
    requires Buffers(current, group)
    requires ScanLines(lines[..i]) == Scan(done, group)
    requires Parsed(pools.State(), Meshes(objs)) == ParseGroups(start, done, num)
    requires Distinct(objs)
    modifies pools
    ensures Buffers(current', group')
    ensures ScanLines(lines[..i + 1]) == Scan(done', group')
    ensures Parsed(pools.State(), Meshes(objs')) == ParseGroups(start, done', num)
    ensures objs <= objs'
    ensures forall k :: |objs| <= k < |objs'| ==> fresh(objs'[k]) && objs'[k].theta == [0, 0, 0]
    ensures Distinct(objs')
  {
    var line := lines[i];
    ScanLinesSnoc(lines, i);
    assert SafeLine(line);
    if IsObjectLine(line) {
      objs', done' := objs, done;
      if |current| > 0 {
        var g := Flush(current, group, pools, num, start, done, objs);
        objs' := objs + [g];
        done' := done + [group];
      }
      current', group' := "", [];
    } else {
      JoinLinesSnoc(group, line);
      current', group', done', objs' := current + line + "\n", group + [line], done, objs;
    }
  }

  /** The end of the text closes the buffer: a non-empty one is parsed as the last object. */
  method ReadEnd(current: string, ghost group: seq<string>, ghost done: seq<seq<string>>,
                 objs: seq<GeometryObject>, pools: Pools, num: string -> real, ghost start: PoolState)
    returns (objs': seq<GeometryObject>)
    requires Buffers(current, group)
    requires Parsed(pools.State(), Meshes(objs)) == ParseGroups(start, done, num)
    requires Distinct(objs)
    modifies pools
    ensures Parsed(pools.State(), Meshes(objs')) == ParseGroups(start, done + Pending(group), num)
    ensures objs <= objs'
    ensures forall k :: |objs| <= k < |objs'| ==> fresh(objs'[k]) && objs'[k].theta == [0, 0, 0]
    ensures Distinct(objs')
  {
    if |current| > 0 {
      var g := Flush(current, group, pools, num, start, done, objs);
      objs' := objs + [g];
    } else {
      assert done + Pending(group) == done;
      objs' := objs;
    }
  }

  /** The `parseOBJ(currentObjString)` call of `parseOBJs`: the group's mesh is appended to the parse. */
  method Flush(current: string, ghost group: seq<string>, pools: Pools, num: string -> real,
               ghost start: PoolState, ghost done: seq<seq<string>>, ghost objs: seq<GeometryObject>)
    returns (g: GeometryObject)
    requires Buffers(current, group) && group != []
    requires Parsed(pools.State(), Meshes(objs)) == ParseGroups(start, done, num)
    modifies pools
    ensures fresh(g) && g.theta == [0, 0, 0]
    ensures Parsed(pools.State(), Meshes(objs + [g])) == ParseGroups(start, done + [group], num)
  {
    BufferParsesAsGroup(group, old(pools.State()), num);
    g := ParseObj(current, pools, num);
    ParseGroupsSnoc(start, done, group, num);
    MeshesSnoc(objs, g);
  }

  /** The buffer of a group is safe to parse, and parsing it means parsing the group's lines. */
  lemma BufferParsesAsGroup(group: seq<string>, p: PoolState, num: string -> real)
    requires group != []
    requires forall k :: 0 <= k < |group| ==> '\n' !in group[k]
    requires forall k {:trigger SafeLine(group[k])} :: 0 <= k < |group| ==> SafeLine(group[k])
    ensures SafeText(JoinLines(group))
    ensures RunLines(ParseState(p, EmptyMesh), Split(JoinLines(group), '\n'), num)
         == RunLines(ParseState(p, EmptyMesh), group, num)
  {
    SplitJoinLines(group);
    var lines := Split(JoinLines(group), '\n');
    assert lines == group + [""];
    assert SafeLine("");
    forall k | 0 <= k < |lines| ensures SafeLine(lines[k]) {
      if k < |group| { assert lines[k] == group[k]; }
    }
    assert lines[..|group|] == group;
  }

  /** Parsing one more group appends its mesh and continues on the pools the earlier groups left. */
  lemma ParseGroupsSnoc(p: PoolState, done: seq<seq<string>>, group: seq<string>, num: string -> real)
    ensures ParseGroups(p, done + [group], num)
         == Parsed(RunLines(ParseState(ParseGroups(p, done, num).pools, EmptyMesh), group, num).pools,
                   ParseGroups(p, done, num).meshes
                   + [RunLines(ParseState(ParseGroups(p, done, num).pools, EmptyMesh), group, num).mesh])
  {
    assert (done + [group])[..|done|] == done;
  }

  lemma {:induction false} JoinLinesSnoc(group: seq<string>, line: string)
    ensures JoinLines(group + [line]) == JoinLines(group) + line + "\n"
  {
    if group != [] {
      assert (group + [line])[1..] == group[1..] + [line];
      JoinLinesSnoc(group[1..], line);
    } else {
      assert [line][1..] == [];
    }
  }

  /** The buffer of a non-empty group is not empty, and splitting it gives back its lines and a final "". */
  lemma {:induction false} SplitJoinLines(group: seq<string>)
    requires forall k :: 0 <= k < |group| ==> '\n' !in group[k]
    ensures group != [] ==> |JoinLines(group)| > 0
    ensures Split(JoinLines(group), '\n') == group + [""]
  {
    if group != [] {
      SplitJoinLines(group[1..]);
      SplitConcatAt(group[0], JoinLines(group[1..]), '\n');
      SplitWithoutSeparator(group[0], '\n');
      assert group[0] + "\n" + JoinLines(group[1..]) == group[0] + ['\n'] + JoinLines(group[1..]);
      assert [group[0]] + group[1..] == group;
    }
  }

  // ---------------------------------------------------------------------------
  // loadOBJ

  /**
   * `loadOBJ(src, separateObjects)` once the file text has arrived: the pools are reset,
   * then the text is parsed as one object or split into objects. The single-object case
   * is returned as a one-element list.
   */
  method LoadObj(text: string, separateObjects: bool, pools: Pools, num: string -> real)
    returns (objs: seq<GeometryObject>)
    requires SafeText(text)
    modifies pools
    ensures forall k :: 0 <= k < |objs| ==> fresh(objs[k]) && objs[k].theta == [0, 0, 0]
    ensures Distinct(objs)
    ensures separateObjects ==>
      Parsed(pools.State(), Meshes(objs)) == ParseGroups(EmptyPools, ObjectGroups(Split(text, '\n')), num)
    ensures !separateObjects ==> (
      && |objs| == 1
      && ParseState(pools.State(), objs[0].Contents())
         == RunLines(ParseState(EmptyPools, EmptyMesh), Split(text, '\n'), num))
  {
    pools.Reset();
    if separateObjects {
      objs := ParseObjs(text, pools, num);
    } else {
      var g := ParseObj(text, pools, num);
      objs := [g];
    }
  }
}
