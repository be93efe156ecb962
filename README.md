# Ferris wheel: OBJ loading and car selection

A Dafny model of the text-and-array logic of `ferrisWheel.js`, the WebGL ferris-wheel
demo. Three parts are modelled.

- **The OBJ loader.**
  - `loadOBJ` resets the file-global vertex pools.
  - `parseOBJs` cuts the file into objects at `o` lines.
  - `parseOBJ` classifies every line as a position, normal, texture-coordinate or face record.
  - `addVertex` resolves each `p/t/n` corner of a fan-triangulated face against the pools.
  - Each output object is a `GeometryObject` with `positions`, `normals`, `colors` and `theta` lists.
- **Car selection.**
  - The "previous" and "next" click handlers move `selectedCar` with JavaScript's truncating `%`.
  - `handleCarChange` paints the new car blue and the old car red.
  - The start-up loop paints the selected car blue.
- **The wheel angle.** `render` advances the skeleton's `theta[2]` by one degree mod 360 each frame.

Modules:

- `Text` (`text.dfy`): ECMAScript `split` on one character, the `\s` whitespace class, and `parseInt` with no radix.
- `Geometry` (`geometry.dfy`): vectors, `Entry` (a value or JavaScript's `undefined`), and the `GeometryObject` class.
- `ObjRecords` (`obj_records.dfy`): the four line patterns, fan triangulation, and the `/`-split of a corner.
- `ObjParser` (`obj_parser.dfy`): the `Pools` class and the imperative `addVertex`, `parseOBJ`, `parseOBJs` and `loadOBJ`.
  - Each is proved against a function on values (`AddCorner`, `RunLines`, `ObjectGroups`, `ParseGroups`).
- `ObjProperties` (`obj_properties.dfy`): what the loader promises, stated on those functions.
- `JsNumber` (`js_number.dfy`): JavaScript's truncating quotient and remainder.
- `Selection` (`selection.dfy`): the selection index moved by the two buttons, and the slot it paints.
- `WheelAngle` (`wheel_angle.dfy`): the skeleton's angle counter.
- `SceneState` (`scene_state.dfy`): the `Scene` class (`objects`, `selectedCar`) and its handlers.
  - The handlers are proved against `Repaint` and `CarChange`, with lemmas about the highlight.

Four behaviours of the code are easy to miss:

- Colours and positions are counted separately.
  - A colour is pushed only for a corner with a second `/` component.
  - A position is pushed only for a numeric first component.
  - So `f 1 2 3` adds three positions and no colour (`ObjProperties.PlainFaceGetsNoColor`).
  - The two counts agree when every corner has a `/` and a numeric first component (`ObjProperties.ColorsMatchPositions`).
- "Previous" from car 0 does not wrap: JavaScript's `%` keeps the sign, so the index becomes -1.
  - Slot `1 + 1 + (-1) = 1` is the wheel skeleton, which exists, so the skeleton is painted blue (`SceneState.PrevFromFirstCarPaintsSkeleton`).
  - A second "previous" gives slot 0, the base. A third gives slot -1, which throws.
- "Next" then "previous" is a round trip from every car but the last (`SceneState.NextThenPrevRestoresColors`).
  - From car 19 the second move lands on -1 (`Selection.NextThenPrev`).
- A final newline makes an object of its own when no line follows the last `o` line.
  - `"o a\n"` splits into `["o a", ""]`, and the empty last line is buffered as `"\n"`.
  - That buffer is not empty, so `parseOBJ` builds one object with no content (`ObjProperties.ObjectLineWithNewline`).

## Model

| member | source | states |
|---|---|---|
| `Text.Split` | ferrisWheel.js:94 | `split` on one character gives one piece more than there are separators; no piece holds the separator; joining the pieces gives the text back |
| `Text.ParseIntOfDigit` | ferrisWheel.js:134 | `parseInt` of one decimal digit is that digit's value |
| `Text.ParseIntWithoutDigits` | ferrisWheel.js:134-138 | `parseInt` of text with no decimal digit, including the empty text, is NaN, so `addVertex` pushes nothing for that component |
| `Geometry.Lookup` | ferrisWheel.js:139 | a 1-based OBJ index picks `pool[index - 1]` exactly when `1 <= index <= pool.length`; any other index reads `undefined` |
| `Geometry.LookupStable` | ferrisWheel.js:139 | an index that resolves keeps resolving to the same entry while the pool only grows |
| `Geometry.GeometryObject.constructor` | ferrisWheel.js:21-26 | a new object has empty positions, normals and colours and `theta == [0, 0, 0]` |
| `ObjRecords.Captures` | ferrisWheel.js:114-116 | a record's numeric groups are `n` tokens of `[\d\.\+\-eE]`, each after a run of whitespace |
| `ObjRecords.CapturesSound` | ferrisWheel.js:114-116 | whatever `Captures` returns, the text is those tokens each after a run of whitespace, the last not continued by what follows |
| `ObjRecords.CapturesIff` | ferrisWheel.js:114-116 | `Captures` gives the tokens `ts` exactly when the text starts with `ts` spaced as the pattern requires; otherwise it gives other tokens or none |
| `ObjRecords.ClassifyPositionIff` | ferrisWheel.js:148-150 | a line is the position record `(x, y, z)` if and only if it is `v` followed by `x`, `y`, `z` spaced as the pattern requires |
| `ObjRecords.ClassifyNormalIff` | ferrisWheel.js:151-153 | a line is the normal record `(x, y, z)` if and only if it is `vn` followed by `x`, `y`, `z` spaced as the pattern requires |
| `ObjRecords.ClassifyTexcoordIff` | ferrisWheel.js:154-156 | a line is the texcoord record `(u, v)` if and only if it is `vt` followed by `u`, `v` spaced as the pattern requires |
| `ObjRecords.Classify` | ferrisWheel.js:114-159 | patterns are tried in the order position, normal, texcoord, face; a face is exactly a `^f\s` line; its corners are the line split on single spaces, first piece dropped |
| `ObjRecords.CapturesSpaced` | ferrisWheel.js:114-116 | conversely, `n` number tokens each after a run of whitespace, followed by anything that does not extend the last token, are captured as exactly those `n` tokens |
| `ObjRecords.PositionLine` | ferrisWheel.js:114 | `v`, then three whitespace-preceded number tokens and any tail that does not extend the third, is the position record of those tokens |
| `ObjRecords.NormalLine` | ferrisWheel.js:115 | `vn` with three such tokens is the normal record of those tokens; the position pattern does not take it |
| `ObjRecords.TexcoordLine` | ferrisWheel.js:116 | `vt` with two such tokens is the texcoord record of those tokens; neither earlier pattern takes it |
| `ObjRecords.NormalAndTexcoordAreNotPositions` | ferrisWheel.js:114-116 | a `vn` or `vt` line never lands in the position pool |
| `ObjRecords.FanPrefixShape` | ferrisWheel.js:161-166 | after `t` turns of the fan loop there are `3t` corners; turn `i` hands on `(v0, v[i+1], v[i+2])` |
| `ObjRecords.FanCornersShape` | ferrisWheel.js:158-166 | a face of `k` tokens, empty tokens included, gives `max(k - 2, 0)` triangles sharing the first corner; fewer than three tokens give none |
| `ObjRecords.EmitsColorIffSlash` | ferrisWheel.js:132-137 | a corner pushes a colour exactly when it contains a `/`, whatever follows the `/` |
| `ObjRecords.SlashedCornerShape` | ferrisWheel.js:132-139 | `p/t/n` splits into exactly `[p, t, n]`; it pushes a colour and does not throw |
| `ObjParser.Pools.constructor` | ferrisWheel.js:7-9 | the three module-level pools start empty |
| `ObjParser.Pools.Reset` | ferrisWheel.js:69-71 | `loadOBJ` empties all three pools |
| `ObjParser.AddVertex` | ferrisWheel.js:131-142 | the corner's effect is `AddCorner`: a numeric component 0 appends that position-pool entry, any component 1 appends red, a numeric component 2 appends that normal-pool entry; `theta` is untouched |
| `ObjParser.AddFace` | ferrisWheel.js:158-166 | the fan loop applies `addVertex` to exactly the fan corners, in order |
| `ObjParser.ParseLine` | ferrisWheel.js:147-167 | one loop turn: a `v` line appends `(x/10, (y-7)/10, z/10, 1)`, a `vn` line appends a normal, a `vt` line appends `(u, 1-v)`, a face appends its corners; other lines change nothing |
| `ObjParser.ParseObj` | ferrisWheel.js:112-172 | the fresh object and the extended pools are the lines of the text processed in order |
| `ObjParser.ParseObjs` | ferrisWheel.js:90-110 | one fresh, distinct object per group of lines between `o` lines, each parsed in turn on the shared pools |
| `ObjParser.ReadLines` | ferrisWheel.js:94-107 | the line loop and the final flush build exactly `ParseGroups` of the line groups |
| `ObjParser.ReadLine` | ferrisWheel.js:95-104 | an `o` line flushes a non-empty buffer and empties it; any other line is appended to the buffer with a newline |
| `ObjParser.ReadEnd` | ferrisWheel.js:106-107 | at the end of the text a non-empty buffer becomes the last object; an empty one adds nothing |
| `ObjParser.Flush` | ferrisWheel.js:97-98 | parsing the buffer appends one object, built from the group's lines on the pools left by the earlier groups |
| `ObjParser.BufferParsesAsGroup` | ferrisWheel.js:102 | re-splitting the newline-joined buffer gives the group's lines plus one empty line, which changes nothing |
| `ObjParser.SplitJoinLines` | ferrisWheel.js:102 | a non-empty buffer is non-empty text and splits back into its lines followed by `""` |
| `ObjParser.LoadObj` | ferrisWheel.js:68-82 | the pools are reset, then the text is parsed as several objects or as one object, from empty pools |
| `ObjProperties.RunLinesGrows` | ferrisWheel.js:148-156 | parsing only appends to the three pools |
| `ObjProperties.ObjectLineIsOther` | ferrisWheel.js:114-117 | an `o` line matches none of the four record patterns |
| `ObjProperties.RunLinesUnmarked` | ferrisWheel.js:145-168 | dropping the `o` lines changes nothing in a single-object parse |
| `ObjProperties.FlattenObjectGroups` | ferrisWheel.js:95-107 | the groups, laid end to end, are exactly the non-`o` lines in file order, so each such line lands in exactly one object |
| `ObjProperties.GroupsAreNonEmptyAndUnmarked` | ferrisWheel.js:96-107 | no group is empty and no group holds an `o` line |
| `ObjProperties.UnmarkedTextIsOneObject` | ferrisWheel.js:94-107 | a text with no `o` line is one object made of all its lines |
| `ObjProperties.EmptyTextIsOneObject` | ferrisWheel.js:94-107 | the empty text still yields exactly one (empty) object |
| `ObjProperties.OnlyObjectLinesMakeNoObject` | ferrisWheel.js:95-107 | a text whose newline-separated pieces are all `o` lines (so with no final newline) yields no object |
| `ObjProperties.TrailingNewlineMakesEmptyObject` | ferrisWheel.js:95-107 | `o` lines followed by one empty piece, which is what a final newline leaves, yield exactly one object, made of the empty line |
| `ObjProperties.ObjectLineWithNewline` | ferrisWheel.js:94-107 | `o a` plus a newline splits into `["o a", ""]` and so yields one empty object |
| `ObjProperties.TwoObjects` | ferrisWheel.js:95-107 | `o`, block, `o`, block yields exactly the two blocks as two objects |
| `ObjProperties.ParseGroupsIsOneParse` | ferrisWheel.js:97-107 | parsing the groups one after another on the shared pools equals one parse of all their lines, cut into meshes |
| `ObjProperties.SeparateObjectsPartitionOneParse` | ferrisWheel.js:77-82 | both branches of `loadOBJ` leave the same pools; the separate objects laid end to end are the single object's mesh |
| `ObjProperties.ParseGroupsGrows` | ferrisWheel.js:119-123 | one object per group, and the shared pools only grow from group to group |
| `ObjProperties.ParseGroupsKeepsReferences` | ferrisWheel.js:139 | a position or normal index that resolves before some groups are parsed resolves to the same entry after them |
| `ObjProperties.AddCornersIgnoresTexcoords` | ferrisWheel.js:133-139 | the corners' output does not depend on the texcoord pool: texcoords are never copied |
| `ObjProperties.RunLinesIgnoresTexcoords` | ferrisWheel.js:154-156 | the mesh, positions and normals a parse builds do not depend on the texcoord pool |
| `ObjProperties.AddCornersCounts` | ferrisWheel.js:133-140 | one position per numeric first component, one normal per numeric third component, one red colour per corner with a second component |
| `ObjProperties.StepLineCounts` | ferrisWheel.js:157-166 | a line adds counts that depend only on its fan corners, and it keeps every colour red |
| `ObjProperties.RunLinesCounts` | ferrisWheel.js:145-168 | a parsed mesh's list lengths follow from its face corners alone; every colour is red |
| `ObjProperties.ParsedObjectsAreRed` | ferrisWheel.js:136 | every colour of every object `parseOBJs` builds is `(1, 0, 0, 1)` |
| `ObjProperties.ColorsMatchPositions` | ferrisWheel.js:133-139 | when every corner has a `/` and a numeric first component, there is one colour per position |
| `ObjProperties.PlainFaceCorners` | ferrisWheel.js:157-159 | `f a b c` is a face whose corners are `a`, `b`, `c` |
| `ObjProperties.DigitCorner` | ferrisWheel.js:133-139 | a one-digit corner appends that position and neither a normal nor a colour |
| `ObjProperties.PlainFaceGetsNoColor` | ferrisWheel.js:133-139 | a face of plain one-digit corners appends three positions, no normal and no colour |
| `ObjProperties.SlashedCornerResolves` | ferrisWheel.js:133-139 | `p/t/n` with numeric `p` and `n` appends position `p`, normal `n` and red |
| `ObjProperties.TriangleFan` | ferrisWheel.js:161-166 | a triangle is handed on as it is |
| `ObjProperties.QuadFan` | ferrisWheel.js:161-166 | `a b c d` becomes the triangles `(a, b, c)` and `(a, c, d)` |
| `ObjProperties.PositionLineStored` | ferrisWheel.js:148-150 | a `v x y z` line appends `(x/10, (y-7)/10, z/10, 1)` to the position pool and changes nothing else |
| `ObjProperties.NormalLineStored` | ferrisWheel.js:151-153 | a `vn x y z` line appends `(x, y, z)` to the normal pool and changes nothing else |
| `ObjProperties.TexcoordLineStored` | ferrisWheel.js:154-156 | a `vt u v` line appends `(u, 1 - v)` to the texcoord pool and changes nothing else |
| `ObjProperties.UnmatchedPositionLineIgnored` | ferrisWheel.js:148-168 | a `v` line that is not `vn`/`vt` and does not match the position pattern changes nothing |
| `ObjProperties.ShortPositionLineIgnored` | ferrisWheel.js:148-168 | `v 1 2`, with one coordinate missing, changes nothing |
| `ObjProperties.NonNumericPositionLineIgnored` | ferrisWheel.js:148-168 | `v x y z`, with non-numeric coordinates, changes nothing |
| `ObjProperties.PositionLineExample` | ferrisWheel.js:150 | the line `v 10 17 0` appends the position `(1, 1, 0, 1)` |
| `JsNumber.JsRem` | ferrisWheel.js:262 | JavaScript `%`: the remainder after the truncated quotient, with the sign of the dividend and size below the divisor |
| `Selection.NextOfCar` | ferrisWheel.js:268 | "next" keeps a car index in `[0, 20)`, steps by one and wraps 19 to 0 |
| `Selection.PrevOfCar` | ferrisWheel.js:262 | "previous" from car `s >= 1` gives `s - 1` |
| `Selection.PrevOfFirstCar` | ferrisWheel.js:262-274 | "previous" from 0 gives -1, slot 1 (the skeleton); then -2, slot 0 (the base); then -3, a slot before the list |
| `Selection.SelectionBounds` | ferrisWheel.js:262-268 | both buttons give an index strictly between -20 and 20 |
| `Selection.PrevThenNext` | ferrisWheel.js:262-268 | "previous" then "next" returns to every car |
| `Selection.NextThenPrev` | ferrisWheel.js:262-268 | "next" then "previous" returns to every car but the last; from car 19 it gives -1 |
| `WheelAngle.NextAngle` | ferrisWheel.js:186 | from a non-negative angle the next angle is in `[0, 360)` |
| `WheelAngle.AngleAfterIsSum` | ferrisWheel.js:186 | after `n` frames the angle is `(t + n) mod 360` |
| `WheelAngle.AngleInRange` | ferrisWheel.js:186 | from a start in `[0, 360)` the angle stays in `[0, 360)` after any number of frames |
| `WheelAngle.AnglePeriodic` | ferrisWheel.js:186 | 360 more frames give the same angle |
| `WheelAngle.AngleFullTurn` | ferrisWheel.js:186 | after 360 frames the angle is back at its start |
| `SceneState.Paint` | ferrisWheel.js:252-254 | the colour loop sets every colour of one object to `c`; positions, normals, `theta` and the number of colours are unchanged |
| `SceneState.RepaintEffect` | ferrisWheel.js:274-280 | a repaint makes the slot all `c`; lengths, positions, normals and every other object are unchanged |
| `SceneState.CarChangeEffect` | ferrisWheel.js:273-281 | afterwards the old car is all red and a different new car all blue (old wins if equal); lengths, positions, normals and other objects are unchanged |
| `SceneState.CarChangeMissingNew` | ferrisWheel.js:274-275 | with no object at the new slot nothing is painted |
| `SceneState.InitialHighlight` | ferrisWheel.js:252-254 | on a full scene of red cars the start-up paint makes car 0 the one blue car; base and skeleton are untouched |
| `SceneState.MoveHighlight` | ferrisWheel.js:273-281 | moving the highlight from car `s` to another car `t` leaves `t` the one blue car; base and skeleton are untouched |
| `SceneState.NextKeepsHighlight` | ferrisWheel.js:266-270 | "next" from any car keeps exactly one car blue: the next one |
| `SceneState.PrevKeepsHighlight` | ferrisWheel.js:260-264 | "previous" from any car but the first keeps exactly one car blue: the one before |
| `SceneState.PrevFromFirstCarPaintsSkeleton` | ferrisWheel.js:260-264 | "previous" from car 0 paints the skeleton blue and leaves no car blue |
| `SceneState.NextThenPrevRestoresColors` | ferrisWheel.js:260-270 | "next" then "previous" from any car but the last restores the index and every object's colours |
| `SceneState.Scene.constructor` | ferrisWheel.js:239-241 | the objects are the base, the skeleton, then the cars; car 0 is selected |
| `SceneState.Scene.PaintSlot` | ferrisWheel.js:252-254 | painting one object of the scene is `Repaint` of its slot; no angle changes |
| `SceneState.Scene.HighlightSelected` | ferrisWheel.js:251-254 | the start-up loop is `Repaint` of the selected slot in blue; it fails when the slot is missing |
| `SceneState.Scene.HandleCarChange` | ferrisWheel.js:273-281 | the objects' meshes become `CarChange` of the old ones; it fails when either slot is missing |
| `SceneState.Scene.PrevCar` | ferrisWheel.js:260-264 | `selectedCar` becomes `PrevIndex` of the old one; the meshes are repainted by `CarChange` |
| `SceneState.Scene.NextCar` | ferrisWheel.js:266-270 | `selectedCar` becomes `NextIndex` of the old one; the meshes are repainted by `CarChange` |
| `SceneState.Scene.TurnWheel` | ferrisWheel.js:186 | only the skeleton's `theta[2]` changes, to `NextAngle` of its old value; no mesh and no other angle changes |

## Left out

- Fetching the file (`loadOBJ`'s XMLHttpRequest and Promise, ferrisWheel.js:73-87): I/O. The file text is a parameter.
- GPU and browser plumbing: `bindBuffers`, `loadBuffer`, the draw calls in `render`, `requestAnimationFrame`, `init`'s canvas and shader setup, and the DOM handler wiring. These are calls into WebGL and the DOM.
- The car orbit and the counter-rotation of the selected car (ferrisWheel.js:188-215): floating-point `sqrt`, `acos`, `cos` and `sin`.
- `getCenter` and the vertical centering loop (ferrisWheel.js:54-66, 244-249): floating-point averaging.
  - Positions are modelled as values.
  - In the source, `addVertex` pushes pool `vec4`s by reference.
  - So the in-place `-=` at line 247 would shift a shared vertex once per face reference. The model does not capture that aliasing.
- `parseFloat` is the parameter `num`, an arbitrary total map from token to `real`. NaN and infinities are not modelled.
- Coordinates are exact `real`s. The double-precision rounding of `/ downscale` and `- 7` (ferrisWheel.js:150) and of `1 - v` (line 156) is not modelled.
- `ObjParser.AddVertex`, `ObjParser.AddFace`, `ObjParser.ParseLine`, `ObjParser.ParseObj`, `ObjParser.ParseObjs`, `ObjParser.ReadLines`, `ObjParser.ReadLine`, `ObjParser.ReadEnd`, `ObjParser.Flush`, `ObjParser.LoadObj`: require that no face corner has a numeric fourth or later `/` component (`SafeFace`, `SafeLine`, `SafeText`, `SafeLines`, `Buffers`). Such a corner indexes a missing output list and throws; the throw is not modelled.
- Out-of-range, zero and negative face indices are modelled, not excluded: each becomes an `undefined` entry. OBJ relative indices are not resolved from the end of the pool, and neither does the source resolve them.
- `WheelAngle.NextAngle`, `SceneState.Scene.TurnWheel`: `theta[2]` is a JavaScript number. It is modelled as an `int` because `rotationSpeed` is `1.0` and the angle starts at 0, so every value is an exact integer. A fractional speed is not modelled.
- `(-20) % 20` is `-0` in JavaScript. The model gives `0`, which behaves the same in every use here.
- `geomObj.bindBuffers()` at the end of `parseOBJ` (ferrisWheel.js:170) uploads to the GPU and is not modelled.
- A thrown `TypeError` (a missing object slot, or the skeleton missing in `render`) is modelled as an `ok == false` result that stops the handler where the source stops. What the browser does after the exception is not modelled.
