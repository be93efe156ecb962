/**
 * How the OBJ loader of ferrisWheel.js reads one line and one face corner: the four
 * record patterns it tries in order, the space-split of a face into corner references,
 * fan triangulation, and the `/`-split of a corner into position, texcoord and normal
 * components.
 */
module ObjRecords {
  import opened Text

  /** The character class `[\d\.\+\-eE]` of the numeric capture groups. */
  predicate IsNumberChar(c: char)
  {
    IsDecimalDigit(c) || c == '.' || c == '+' || c == '-' || c == 'e' || c == 'E'
  }

  predicate IsNumberToken(t: string)
  {
    t != [] && forall k :: 0 <= k < |t| ==> IsNumberChar(t[k])
  }

  /**
   * Matches `(\s+([\d\.\+\-eE]+)){n}` at the start of `s` and returns the `n` captures.
   * Whitespace and the number class are disjoint, so the regular expression's greedy
   * runs never backtrack: each capture is the maximal run after a maximal run of spaces.
   */
  function Captures(s: string, n: nat): (r: Option<seq<string>>)
    ensures r.Some? ==> |r.value| == n
    ensures r.Some? ==> forall k :: 0 <= k < n ==> IsNumberToken(r.value[k])
    ensures r.Some? && n > 0 ==> s != [] && IsSpace(s[0])
  {
    if n == 0 then Some([])
    else
      var spaces := TakeWhile(s, IsSpace);
      var rest := s[|spaces|..];
      var token := TakeWhile(rest, IsNumberChar);
      if spaces == [] || token == [] then None
      else
        match Captures(rest[|token|..], n - 1)
        case None => None
        case Some(more) => Some([token] + more)
  }

  /** A non-empty run of whitespace, as `\s+` matches it. */
  predicate IsSpaceRun(w: string)
  {
    w != [] && forall k :: 0 <= k < |w| ==> IsSpace(w[k])
  }

  /** What may follow a number token without extending it: the end of the text or a non-number character. */
  predicate ClosesToken(tail: string)
  {
    tail == [] || !IsNumberChar(tail[0])
  }

  /** The text `ws[0] + ts[0] + ws[1] + ts[1] + ...`: tokens each preceded by its run of spaces. */
  function Spaced(ws: seq<string>, ts: seq<string>): string
    requires |ws| == |ts|
  {
    if ts == [] then "" else ws[0] + ts[0] + Spaced(ws[1..], ts[1..])
  }

  lemma SpaceIsNotNumber(c: char)
    requires IsSpace(c)
    ensures !IsNumberChar(c)
  {
  }

  /** One round of the capture loop: a run of spaces, then a token that the rest does not extend. */
  lemma CapturesStep(w: string, t: string, rest: string, n: nat)
    requires n > 0 && IsSpaceRun(w) && IsNumberToken(t) && ClosesToken(rest)
    ensures Captures(rest, n - 1).Some? ==> Captures(w + t + rest, n) == Some([t] + Captures(rest, n - 1).value)
  {
    var s := w + t + rest;
    assert s == w + (t + rest);
    assert (t + rest)[0] == t[0];
    if IsSpace(t[0]) {
      SpaceIsNotNumber(t[0]);
    }
    TakeWhileRun(w, t + rest, IsSpace);
    assert s[|w|..] == t + rest;
    TakeWhileRun(t, rest, IsNumberChar);
    assert (t + rest)[|t|..] == rest;
  }

  /**
   * The converse of `Captures`' contract: a text made of `n` space-preceded number tokens,
   * followed by anything that does not continue the last token, yields exactly those tokens.
   */
  lemma {:induction false} CapturesSpaced(ws: seq<string>, ts: seq<string>, tail: string)
    requires |ws| == |ts|
    requires forall k :: 0 <= k < |ws| ==> IsSpaceRun(ws[k])
    requires forall k :: 0 <= k < |ts| ==> IsNumberToken(ts[k])
    requires ts != [] ==> ClosesToken(tail)
    ensures Captures(Spaced(ws, ts) + tail, |ts|) == Some(ts)
  {
    if ts != [] {
      var rest := Spaced(ws[1..], ts[1..]) + tail;
      CapturesSpaced(ws[1..], ts[1..], tail);
      SpacedCloses(ws[1..], ts[1..], tail);
      SpacedUnfold(ws, ts, tail);
      CapturesStep(ws[0], ts[0], rest, |ts|);
      assert [ts[0]] + ts[1..] == ts;
    }
  }

  lemma SpacedUnfold(ws: seq<string>, ts: seq<string>, tail: string)
    requires |ws| == |ts| && ts != []
    ensures Spaced(ws, ts) + tail == ws[0] + ts[0] + (Spaced(ws[1..], ts[1..]) + tail)
  {
  }

  /** Spaced tokens start with whitespace, so they never extend a token before them. */
  lemma SpacedCloses(ws: seq<string>, ts: seq<string>, tail: string)
    requires |ws| == |ts|
    requires forall k :: 0 <= k < |ws| ==> IsSpaceRun(ws[k])
    requires ts == [] ==> ClosesToken(tail)
    ensures ClosesToken(Spaced(ws, ts) + tail)
  {
    if ts != [] {
      assert (Spaced(ws, ts) + tail)[0] == ws[0][0];
      SpaceIsNotNumber(ws[0][0]);
    }
  }

  lemma SpacedThree(w1: string, x: string, w2: string, y: string, w3: string, z: string, tail: string)
    ensures Spaced([w1, w2, w3], [x, y, z]) + tail == w1 + x + w2 + y + w3 + z + tail
  {
    assert [w1, w2, w3][1..] == [w2, w3] && [x, y, z][1..] == [y, z];
    assert [w2, w3][1..] == [w3] && [y, z][1..] == [z];
    assert Spaced([w3], [z]) == w3 + z + Spaced([], []) == w3 + z;
    assert Spaced([w2, w3], [y, z]) == w2 + y + (w3 + z);
  }

  lemma SpacedTwo(w1: string, u: string, w2: string, v: string, tail: string)
    ensures Spaced([w1, w2], [u, v]) + tail == w1 + u + w2 + v + tail
  {
    assert [w1, w2][1..] == [w2] && [u, v][1..] == [v];
    assert Spaced([w2], [v]) == w2 + v + Spaced([], []) == w2 + v;
  }

  /** Three space-preceded number tokens (and whatever does not extend the last) give those three captures. */
  lemma CapturesThree(w1: string, x: string, w2: string, y: string, w3: string, z: string, tail: string)
    requires IsSpaceRun(w1) && IsSpaceRun(w2) && IsSpaceRun(w3)
    requires IsNumberToken(x) && IsNumberToken(y) && IsNumberToken(z)
    requires ClosesToken(tail)
    ensures Captures(w1 + x + w2 + y + w3 + z + tail, 3) == Some([x, y, z])
  {
    SpacedThree(w1, x, w2, y, w3, z, tail);
    CapturesSpaced([w1, w2, w3], [x, y, z], tail);
  }

  lemma CapturesTwo(w1: string, u: string, w2: string, v: string, tail: string)
    requires IsSpaceRun(w1) && IsSpaceRun(w2)
    requires IsNumberToken(u) && IsNumberToken(v)
    requires ClosesToken(tail)
    ensures Captures(w1 + u + w2 + v + tail, 2) == Some([u, v])
  {
    SpacedTwo(w1, u, w2, v, tail);
    CapturesSpaced([w1, w2], [u, v], tail);
  }

  /** Space runs `ws`, one before each token of `ts`, and a `tail` that does not extend the last token. */
  predicate IsSpacing(ws: seq<string>, ts: seq<string>, tail: string)
  {
    && |ws| == |ts|
    && (forall k :: 0 <= k < |ws| ==> IsSpaceRun(ws[k]))
    && (ts != [] ==> ClosesToken(tail))
  }

  /**
   * `s` starts with what `(\s+([\d\.\+\-eE]+)){|ts|}` matches with the captures `ts`:
   * each token a run of number characters after a run of whitespace, the last one
   * not continued by what follows.
   */
  ghost predicate SpacedTokens(s: string, ts: seq<string>)
  {
    && (forall k :: 0 <= k < |ts| ==> IsNumberToken(ts[k]))
    && exists ws: seq<string>, tail: string :: IsSpacing(ws, ts, tail) && s == Spaced(ws, ts) + tail
  }

  /** Whatever `Captures` returns is matched by the pattern: the text is those tokens, spaced. */
  lemma {:induction false} CapturesSound(s: string, n: nat)
    requires Captures(s, n).Some?
    ensures SpacedTokens(s, Captures(s, n).value)
    decreases n
  {
    if n == 0 {
      assert Spaced([], []) + s == s;
      assert IsSpacing([], [], s);
    } else {
      var w, t, after := CapturesHead(s, n);
      CapturesSound(after, n - 1);
      var more := Captures(after, n - 1).value;
      var ws, tail :| IsSpacing(ws, more, tail) && after == Spaced(ws, more) + tail;
      SpacedCons(s, w, t, after, ws, more, tail);
    }
  }

  /** The first round of a successful capture: a space run, a token, and the text after it. */
  lemma CapturesHead(s: string, n: nat) returns (w: string, t: string, after: string)
    requires n > 0 && Captures(s, n).Some?
    ensures IsSpaceRun(w) && s == w + t + after
    ensures Captures(after, n - 1).Some? && Captures(s, n).value == [t] + Captures(after, n - 1).value
    ensures n == 1 ==> ClosesToken(after)
  {
    w := TakeWhile(s, IsSpace);
    var rest := s[|w|..];
    t := TakeWhile(rest, IsNumberChar);
    after := rest[|t|..];
    if after != [] {
      assert after[0] == rest[|t|];
    }
    assert s == w + rest && rest == t + after;
  }

  /** One more space run and token in front of a spaced text is again a spaced text. */
  lemma SpacedCons(s: string, w: string, t: string, after: string, ws: seq<string>, ts: seq<string>, tail: string)
    requires IsSpaceRun(w) && s == w + t + after
    requires IsSpacing(ws, ts, tail) && after == Spaced(ws, ts) + tail
    requires ts == [] ==> ClosesToken(after)
    ensures IsSpacing([w] + ws, [t] + ts, tail) && s == Spaced([w] + ws, [t] + ts) + tail
  {
    assert ([w] + ws)[1..] == ws && ([t] + ts)[1..] == ts;
    SpacedUnfold([w] + ws, [t] + ts, tail);
    if ts == [] {
      assert after == tail;
    }
  }

  lemma CapturesComplete(s: string, ts: seq<string>)
    requires SpacedTokens(s, ts)
    ensures Captures(s, |ts|) == Some(ts)
  {
    var ws, tail :| IsSpacing(ws, ts, tail) && s == Spaced(ws, ts) + tail;
    CapturesSpaced(ws, ts, tail);
  }

  /** `Captures` returns exactly the captures of the pattern, and fails exactly where the pattern does not match. */
  lemma CapturesIff(s: string, ts: seq<string>)
    ensures Captures(s, |ts|) == Some(ts) <==> SpacedTokens(s, ts)
  {
    if Captures(s, |ts|) == Some(ts) {
      CapturesSound(s, |ts|);
    }
    if SpacedTokens(s, ts) {
      CapturesComplete(s, ts);
    }
  }

  /** What one line of OBJ text is taken to be; `Other` lines are ignored. */
  datatype Record =
    | PositionRecord(x: string, y: string, z: string)
    | NormalRecord(nx: string, ny: string, nz: string)
    | TexcoordRecord(u: string, v: string)
    | FaceRecord(refs: seq<string>)
    | Other

  predicate IsFaceLine(line: string)
  {
    |line| >= 2 && line[0] == 'f' && IsSpace(line[1])
  }

  /**
   * The loader's classification of a line: `^v\s+N\s+N\s+N`, then `^vn\s+N\s+N\s+N`,
   * then `^vt\s+N\s+N`, then `^f\s`, first match wins. A face's corner references are
   * the line split on single spaces with its first piece dropped.
   */
  function Classify(line: string): (r: Record)
    ensures r.PositionRecord? ==> |line| >= 2 && line[0] == 'v' && IsSpace(line[1])
    ensures r.PositionRecord? ==> IsNumberToken(r.x) && IsNumberToken(r.y) && IsNumberToken(r.z)
    ensures r.NormalRecord? ==> |line| >= 3 && line[..2] == "vn" && IsSpace(line[2])
    ensures r.TexcoordRecord? ==> |line| >= 3 && line[..2] == "vt" && IsSpace(line[2])
    ensures r.TexcoordRecord? ==> IsNumberToken(r.u) && IsNumberToken(r.v)
    ensures r.FaceRecord? <==> IsFaceLine(line)
    ensures r.FaceRecord? ==> r.refs == Split(line, ' ')[1..]
  {
    var position := if |line| >= 1 && line[0] == 'v' then Captures(line[1..], 3) else None;
    var normal := if |line| >= 2 && line[..2] == "vn" then Captures(line[2..], 3) else None;
    var texcoord := if |line| >= 2 && line[..2] == "vt" then Captures(line[2..], 2) else None;
    if position.Some? then
      PositionRecord(position.value[0], position.value[1], position.value[2])
    else if normal.Some? then
      NormalRecord(normal.value[0], normal.value[1], normal.value[2])
    else if texcoord.Some? then
      TexcoordRecord(texcoord.value[0], texcoord.value[1])
    else if IsFaceLine(line) then
      FaceRecord(Split(line, ' ')[1..])
    else
      Other
  }

  /** A line is the position record `(x, y, z)` exactly when it is `v` followed by those three tokens, spaced. */
  lemma ClassifyPositionIff(line: string, x: string, y: string, z: string)
    ensures Classify(line) == PositionRecord(x, y, z) <==>
      |line| >= 1 && line[0] == 'v' && SpacedTokens(line[1..], [x, y, z])
  {
    PositionCaptures(line, x, y, z);
    if |line| >= 1 {
      CapturesIff(line[1..], [x, y, z]);
    }
  }

  lemma PositionCaptures(line: string, x: string, y: string, z: string)
    ensures Classify(line) == PositionRecord(x, y, z) <==>
      |line| >= 1 && line[0] == 'v' && Captures(line[1..], 3) == Some([x, y, z])
  {
    if |line| >= 1 && line[0] == 'v' && Captures(line[1..], 3).Some? {
      var c := Captures(line[1..], 3).value;
      assert c == [c[0], c[1], c[2]];
    }
  }

  /** A line is the normal record `(x, y, z)` exactly when it is `vn` followed by those three tokens, spaced. */
  lemma ClassifyNormalIff(line: string, x: string, y: string, z: string)
    ensures Classify(line) == NormalRecord(x, y, z) <==>
      |line| >= 2 && line[..2] == "vn" && SpacedTokens(line[2..], [x, y, z])
  {
    NormalCaptures(line, x, y, z);
    if |line| >= 2 {
      CapturesIff(line[2..], [x, y, z]);
    }
  }

  lemma NormalCaptures(line: string, x: string, y: string, z: string)
    ensures Classify(line) == NormalRecord(x, y, z) <==>
      |line| >= 2 && line[..2] == "vn" && Captures(line[2..], 3) == Some([x, y, z])
  {
    if |line| >= 2 && line[..2] == "vn" {
      assert line[1..][0] == line[..2][1] == 'n' && !IsSpace('n');
      if Captures(line[2..], 3).Some? {
        var c := Captures(line[2..], 3).value;
        assert c == [c[0], c[1], c[2]];
      }
    }
  }

  /** A line is the texcoord record `(u, v)` exactly when it is `vt` followed by those two tokens, spaced. */
  lemma ClassifyTexcoordIff(line: string, u: string, v: string)
    ensures Classify(line) == TexcoordRecord(u, v) <==>
      |line| >= 2 && line[..2] == "vt" && SpacedTokens(line[2..], [u, v])
  {
    TexcoordCaptures(line, u, v);
    if |line| >= 2 {
      CapturesIff(line[2..], [u, v]);
    }
  }

  lemma TexcoordCaptures(line: string, u: string, v: string)
    ensures Classify(line) == TexcoordRecord(u, v) <==>
      |line| >= 2 && line[..2] == "vt" && Captures(line[2..], 2) == Some([u, v])
  {
    if |line| >= 2 && line[..2] == "vt" {
      assert line[1..][0] == line[..2][1] == 't' && !IsSpace('t');
      assert line[..2] != "vn";
      if Captures(line[2..], 2).Some? {
        var c := Captures(line[2..], 2).value;
        assert c == [c[0], c[1]];
      }
    }
  }

  /** `v x y z` (any spacing, anything after `z` that does not extend it) is the position record `(x, y, z)`. */
  lemma PositionLine(w1: string, x: string, w2: string, y: string, w3: string, z: string, tail: string)
    requires IsSpaceRun(w1) && IsSpaceRun(w2) && IsSpaceRun(w3)
    requires IsNumberToken(x) && IsNumberToken(y) && IsNumberToken(z)
    requires ClosesToken(tail)
    ensures Classify("v" + (w1 + x + w2 + y + w3 + z + tail)) == PositionRecord(x, y, z)
  {
    var line := "v" + (w1 + x + w2 + y + w3 + z + tail);
    assert line[1..] == w1 + x + w2 + y + w3 + z + tail;
    CapturesThree(w1, x, w2, y, w3, z, tail);
  }

  /** `vn x y z` is the normal record `(x, y, z)`: the position pattern fails on the `n`. */
  lemma NormalLine(w1: string, x: string, w2: string, y: string, w3: string, z: string, tail: string)
    requires IsSpaceRun(w1) && IsSpaceRun(w2) && IsSpaceRun(w3)
    requires IsNumberToken(x) && IsNumberToken(y) && IsNumberToken(z)
    requires ClosesToken(tail)
    ensures Classify("vn" + (w1 + x + w2 + y + w3 + z + tail)) == NormalRecord(x, y, z)
  {
    CapturesThree(w1, x, w2, y, w3, z, tail);
    NormalBody("vn" + (w1 + x + w2 + y + w3 + z + tail), w1 + x + w2 + y + w3 + z + tail, [x, y, z]);
  }

  lemma NormalBody(line: string, body: string, captures: seq<string>)
    requires line == "vn" + body && Captures(body, 3) == Some(captures)
    ensures Classify(line) == NormalRecord(captures[0], captures[1], captures[2])
  {
    assert line[1..][0] == 'n' && !IsSpace('n');
    assert line[..2] == "vn" && line[2..] == body;
  }

  /** `vt u v` is the texcoord record `(u, v)`: the position pattern fails on the `t`, the normal pattern on the prefix. */
  lemma TexcoordLine(w1: string, u: string, w2: string, v: string, tail: string)
    requires IsSpaceRun(w1) && IsSpaceRun(w2)
    requires IsNumberToken(u) && IsNumberToken(v)
    requires ClosesToken(tail)
    ensures Classify("vt" + (w1 + u + w2 + v + tail)) == TexcoordRecord(u, v)
  {
    var line := "vt" + (w1 + u + w2 + v + tail);
    assert Captures(line[1..], 3) == None by {
      assert line[1..][0] == 't' && !IsSpace('t');
    }
    assert line[..2] == "vt" != "vn";
    assert line[2..] == w1 + u + w2 + v + tail;
    CapturesTwo(w1, u, w2, v, tail);
  }

  /** A `vn` or `vt` line is never read as a position record. */
  lemma NormalAndTexcoordAreNotPositions(line: string)
    requires |line| >= 2 && (line[..2] == "vn" || line[..2] == "vt")
    ensures !Classify(line).PositionRecord?
  {
    assert line[1] == line[..2][1];
  }

  /** Number of triangles the loader emits for a face of `|refs|` corners: `|refs| - 2`, and none below three. */
  function Triangles(refs: seq<string>): nat
  {
    if |refs| >= 2 then |refs| - 2 else 0
  }

  /** The corner references handed to `addVertex` by the first `t` turns of the fan loop. */
  function FanPrefix(refs: seq<string>, t: nat): seq<string>
    requires t <= Triangles(refs)
  {
    if t == 0 then [] else FanPrefix(refs, t - 1) + [refs[0], refs[t], refs[t + 1]]
  }

  /** All corners of a fan-triangulated face, in the order `addVertex` sees them. */
  function FanCorners(refs: seq<string>): seq<string>
  {
    FanPrefix(refs, Triangles(refs))
  }

  /** Triangle `i` of the fan is `(refs[0], refs[i + 1], refs[i + 2])`, and there are `t` of them. */
  lemma {:induction false} FanPrefixShape(refs: seq<string>, t: nat)
    requires t <= Triangles(refs)
    ensures |FanPrefix(refs, t)| == 3 * t
    ensures forall i :: 0 <= i < t ==>
      FanPrefix(refs, t)[3 * i] == refs[0] &&
      FanPrefix(refs, t)[3 * i + 1] == refs[i + 1] &&
      FanPrefix(refs, t)[3 * i + 2] == refs[i + 2]
  {
    if t > 0 {
      FanPrefixShape(refs, t - 1);
    }
  }

  /** A face of k corners makes max(k - 2, 0) triangles sharing its first corner. */
  lemma FanCornersShape(refs: seq<string>)
    ensures |FanCorners(refs)| == 3 * Triangles(refs)
    ensures |refs| < 3 ==> FanCorners(refs) == []
    ensures forall i :: 0 <= i < Triangles(refs) ==>
      FanCorners(refs)[3 * i] == refs[0] &&
      FanCorners(refs)[3 * i + 1] == refs[i + 1] &&
      FanCorners(refs)[3 * i + 2] == refs[i + 2]
  {
    FanPrefixShape(refs, Triangles(refs));
  }

  /** The `/`-separated components of a corner reference. */
  function Parts(ref: string): seq<string>
  {
    Split(ref, '/')
  }

  /** The 1-based position index of a corner, when its first component is numeric. */
  function PositionIndex(ref: string): Option<int>
  {
    ParseInt(Parts(ref)[0])
  }

  /** The 1-based normal index of a corner, when it has a numeric third component. */
  function NormalIndex(ref: string): Option<int>
  {
    if |Parts(ref)| >= 3 then ParseInt(Parts(ref)[2]) else None
  }

  /** Whether `addVertex` pushes a colour for this corner: exactly when there is a second component. */
  predicate EmitsColor(ref: string)
  {
    |Parts(ref)| >= 2
  }

  /**
   * A corner whose fourth or later component is numeric makes `addVertex` index a
   * fourth output list that does not exist, which throws.
   */
  predicate Throws(ref: string)
  {
    exists j :: 3 <= j < |Parts(ref)| && ParseInt(Parts(ref)[j]).Some?
  }

  lemma {:induction false} OccurrencesPositive(s: string, c: char)
    ensures Occurrences(s, c) > 0 <==> c in s
  {
    if s != [] {
      OccurrencesPositive(s[1..], c);
      assert s == [s[0]] + s[1..];
    }
  }

  /** A colour is emitted exactly for corners that contain a `/`, whatever follows it. */
  lemma EmitsColorIffSlash(ref: string)
    ensures EmitsColor(ref) <==> '/' in ref
  {
    OccurrencesPositive(ref, '/');
  }

  /** `p/t/n` with a numeric first component resolves a position; `t` and `n` may be empty. */
  lemma {:induction false} SlashedCornerShape(p: string, t: string, n: string)
    requires '/' !in p && '/' !in t && '/' !in n
    ensures Parts(p + "/" + t + "/" + n) == [p, t, n]
    ensures EmitsColor(p + "/" + t + "/" + n)
    ensures !Throws(p + "/" + t + "/" + n)
  {
    var ref := p + "/" + t + "/" + n;
    var rest := t + "/" + n;
    assert ref == p + ['/'] + rest;
    assert rest[..|t|] == t && rest[|t|] == '/' && rest[|t| + 1..] == n;
    SplitAtOnly(rest, '/', |t|);
    SplitConcatAt(p, rest, '/');
  }
}
