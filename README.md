# Minion Mania: lane state and asset decoding, in Dafny

This project models the core of an early build of *Minion Mania*, an
endless-runner game written in C++ on GLUT. The model covers two parts.

- **The world state of `OpenGLMeshLoader.cpp`** (module `Game`). These are
  the globals that the keyboard, idle and display callbacks change. The
  player stands in one of six lanes, and its X coordinate is the lane's
  entry in `xPositions`. The keys 'a' and 'd' move one lane, clamped at
  the edges. The key 'w' flips between third and first person and
  re-poses the camera. `SpawnBananas` replaces the banana collection with
  a row of bananas placed 10 units apart along Z, each in a random lane.
  `Idle` moves every banana 0.005 towards the camera. `UpdatePositions`
  moves the bridge offset by 0.006 per frame. The class `World` holds
  these globals. Its invariant `Valid` says four things: the lane index is
  in range, the player stands in that lane, the bridge offset is not
  negative, and the bananas form a row. The specification functions
  `OnKey`, `Spawned`, `Advanced`, `BridgeStep` and `CameraFor` describe
  what each callback does. The lemmas about them state the lane and
  layout properties.
- **The loaders of `objLoader.cpp`** (modules `Obj` and `Bmp`).
  - `LoadOBJ` dispatches each line of a Wavefront OBJ file on its first
    word: `v`, `vt`, `vn` or `f` with `v/vt/vn` corners. It then resolves
    every face corner's 1-based indices. It appends the resulting values
    to the global `vertices`, `uvs` and `normals` buffers, which are never
    cleared.
  - `LoadBMP` checks the 54-byte Windows bitmap header (a
    BITMAPFILEHEADER followed by a BITMAPINFOHEADER). It reads four
    little-endian 32-bit fields from it and applies defaults to the
    missing ones. It then reads the pixel bytes into a zero-filled buffer.
    `DecodeHeader` is a pure decoder. Its partner is an encoder,
    `EncodeHeader`, and the round-trip lemma `DecodeEncoded` connects the
    two.

Positions and speeds are `real`s. Random numbers arrive as input: the
values `rand()` returns, one per banana. A file arrives as an `Option`, and
`None` means it could not be opened. An OBJ file is a sequence of
pre-tokenised lines. A BMP file is a byte sequence.

This early build has no jumping, coins, hazards, timers, scoring or second
level, and it has a single lane array. Some behaviour is modelled exactly as
written:
- The camera starts at `Eye = (2.5, 12, 64)` while `minionX = 2.4`.
- 'a' and 'd' do not call `UpdateCamera`.
- So `Eye.x == minionX` holds right after `UpdateCamera` (and so after
  'w'), and not as an invariant.

## Model

| member | source | states |
|---|---|---|
| `Game.Vec3.AddToAll` | OpenGLMeshLoader.cpp:53-58 | `v += value` adds the same amount to every coordinate |
| `Game.AddToAllInverse` | OpenGLMeshLoader.cpp:53-58 | adding `value` and then `-value` restores the vector |
| `Game.AddToAllTwice` | OpenGLMeshLoader.cpp:53-58 | two `+=` equal one `+=` of the sum |
| `Game.OnKey` | OpenGLMeshLoader.cpp:331-351 | a key keeps an in-range lane in range and moves it by at most one; 'w' flips the perspective and no other key changes it; keys other than 'a' and 'd' leave the lane alone |
| `Game.EdgesClamp` | OpenGLMeshLoader.cpp:336-348 | 'a' in lane 0 and 'd' in lane 5 change nothing (clamp, not wrap) |
| `Game.InnerLanesMoveByOne` | OpenGLMeshLoader.cpp:336-348 | away from the edges, 'a' and 'd' move exactly one lane |
| `Game.ToggleTwiceRestores` | OpenGLMeshLoader.cpp:331-334 | 'w' leaves the lane alone, and pressing it twice restores the state |
| `Game.KeysKeepLaneInRange` | OpenGLMeshLoader.cpp:336-348 | from any lane in range, any sequence of keys keeps the lane in `[0, xCount-1]` |
| `Game.RightPresses` | OpenGLMeshLoader.cpp:343-348 | `n` presses of 'd' reach lane `min(lane + n, 5)` |
| `Game.LeftPresses` | OpenGLMeshLoader.cpp:336-341 | `n` presses of 'a' reach lane `max(lane - n, 0)` |
| `Game.FiveRightsFromStart` | OpenGLMeshLoader.cpp:21-23 | from the initial lane 2, five presses of 'd' end in lane 5 |
| `Game.CameraFor` | OpenGLMeshLoader.cpp:307-316 | `Eye.x = minionX` and `Eye.y = 12` in both modes; third person gives `Eye.z = 64`, `At = (0,0,0)`; first person gives `Eye.z = 45`, `At = (0,2,-10)` |
| `Game.LaneX` | OpenGLMeshLoader.cpp:36 | the banana X drawn from `rand() % xCount` is one of the lane positions |
| `Game.Spawned` | OpenGLMeshLoader.cpp:30-39 | a spawned row has exactly one banana per random value |
| `Game.SpawnedAt` | OpenGLMeshLoader.cpp:35-38 | banana `i` is at `x = xPositions[rand_i % 6]`, `y = 11`, `z = 55 - 10*i` |
| `Game.SpawnedIsRow` | OpenGLMeshLoader.cpp:30-39 | a fresh row is a row (lanes, height 11, spacing 10) starting at depth 55 |
| `Game.Advanced` | OpenGLMeshLoader.cpp:300-303 | an idle tick keeps the number of bananas |
| `Game.Nudged` | OpenGLMeshLoader.cpp:302 | `banana.z += 0.005f` keeps a banana's `x` and `y` and moves it forward in `z` |
| `Game.AdvancedAt` | OpenGLMeshLoader.cpp:300-303 | an idle tick adds 0.005 to each banana's `z` and keeps its order, `x` and `y` |
| `Game.AdvancedKeepsRow` | OpenGLMeshLoader.cpp:300-303 | an idle tick keeps the row's lanes, height and spacing |
| `Game.BridgeStep` | OpenGLMeshLoader.cpp:264-269 | from a non-negative offset the reset branch never fires: the offset grows by exactly `bridgeSpeed` |
| `Game.BridgeAfterFrames` | OpenGLMeshLoader.cpp:264-269 | after `n` frames from the initial 0 the offset is `n * 0.006` |
| `Game.BridgeIncreases` | OpenGLMeshLoader.cpp:77-78 | starting at 0 with a positive speed, the offset is never negative and strictly increases |
| `Game.World.Valid` | OpenGLMeshLoader.cpp:20-23 | the globals' invariant: `0 <= LaneIndex < xCount`, `minionX == xPositions[LaneIndex]`, bridge offset not negative, bananas in a row; it implies the player and every banana stand in a lane |
| `Game.World.constructor` | OpenGLMeshLoader.cpp:20-23 | the initial globals: lane 2, `minionX = 2.4 = xPositions[2]`, third person, initial camera, no bananas, bridge at 0; the invariant holds |
| `Game.World.SpawnBananas` | OpenGLMeshLoader.cpp:30-40 | replaces (does not append to) the bananas with the row for the first `count` random values; nothing else changes; the invariant is kept |
| `Game.World.Init` | OpenGLMeshLoader.cpp:166-167 | start-up spawns exactly ten bananas |
| `Game.World.Idle` | OpenGLMeshLoader.cpp:300-305 | the in-place loop leaves the bananas equal to `Advanced` of the old ones; nothing else changes |
| `Game.World.UpdatePositions` | OpenGLMeshLoader.cpp:264-269 | the bridge offset becomes `old + bridgeSpeed`; the reset cannot fire from a valid state |
| `Game.World.UpdateCamera` | OpenGLMeshLoader.cpp:307-319 | the camera is set to `CameraFor(isThirdPerson, minionX)`; only `Eye` and `At` change |
| `Game.World.Keyboard` | OpenGLMeshLoader.cpp:325-354 | Escape quits and changes nothing; lane and perspective follow `OnKey`; `minionX == xPositions[LaneIndex]` after every key; 'w' re-poses the camera and other keys leave it alone |
| `Obj.FaceCorners` | objLoader.cpp:51-54 | a face line is read as exactly three `v/vt/vn` corners |
| `Obj.ReadLine` | objLoader.cpp:31-59 | the prefix dispatch: only a `v` line changes the positions, only `vt` the texture coordinates, only `vn` the normals, only `f` the three index lists |
| `Obj.ReadLines` | objLoader.cpp:28-60 | after the reading loop the three index lists have the same length, a multiple of 3 |
| `Obj.ReadLinesSnoc` | objLoader.cpp:28-60 | the lines are dispatched one at a time, in file order |
| `Obj.ReadLineExtends` | objLoader.cpp:33-59 | `v` appends 3 values, `vt` 2 and `vn` 3 to their lists; `f` appends 3 entries to each index list; old contents are kept; any other first word changes nothing |
| `Obj.ReadLinesSizes` | objLoader.cpp:28-60 | after a file, each list holds 3 (2 for `vt`) values per line of its kind, and the three index lists have equal length, 3 per face |
| `Obj.ReadLinesVertexAt` | objLoader.cpp:33-38 | the `k`-th line, a `v` line preceded by `c` other `v` lines, stores its three numbers at slots `3c .. 3c+2` of `temp_vertices`, so 1-based index `c+1` names it |
| `Obj.ReadLinesUvAt` | objLoader.cpp:39-43 | a `vt` line preceded by `c` other `vt` lines stores its two numbers at slots `2c`, `2c+1` of `temp_uvs` |
| `Obj.ReadLinesNormalAt` | objLoader.cpp:44-49 | a `vn` line preceded by `c` other `vn` lines stores its three numbers at slots `3c .. 3c+2` of `temp_normals` |
| `Obj.ReadLinesFaceAt` | objLoader.cpp:50-58 | an `f` line preceded by `c` other faces stores corner `i`'s position, texture and normal indices at slot `3c+i` of the three index lists |
| `Obj.GatherFirst` | objLoader.cpp:63-78 | resolving `n` corners yields `width * n` values |
| `Obj.Gather` | objLoader.cpp:63-78 | flattening all corners yields `width` values per face index |
| `Obj.GatherAt` | objLoader.cpp:63-77 | value `j` of corner `i` is value `j` of the group the corner's 1-based index names, e.g. `temp_vertices[3*(vi-1) + j]` |
| `Obj.LoadedSizes` | objLoader.cpp:63-84 | a file with `k` face lines yields `9k` position values, `6k` texture-coordinate values and `9k` normal values |
| `Obj.ReadAll` | objLoader.cpp:27-60 | the reading loop produces exactly the dispatched lists `ReadLines(lines)` |
| `Obj.Mesh.constructor` | objLoader.cpp:9-11 | the global buffers start empty |
| `Obj.Mesh.AppendCorners` | objLoader.cpp:62-78 | the corner loop appends the resolved corners to the buffers, keeping their old contents as a prefix |
| `Obj.Mesh.LoadObj` | objLoader.cpp:15-85 | returns false and leaves the buffers untouched when the file cannot be opened; otherwise returns true and appends the resolved corners of the whole file. It requires every face index to lie between 1 and the element count, which the source does not check |
| `Bmp.Le32` | objLoader.cpp:105-108 | a field is four bytes, little-endian, read as an unsigned 32-bit value |
| `Bmp.Le32Bytes` | objLoader.cpp:105-108 | every unsigned 32-bit value has a 4-byte encoding that `Le32` reads back |
| `Bmp.DecodeHeader` | objLoader.cpp:99-111 | rejects exactly when fewer than 54 bytes are available or the first two bytes are not "BM"; accepted fields are 32-bit and the data offset is never 0 |
| `Bmp.EncodeHeader` | objLoader.cpp:99-108 | the 54-byte layout the decoder reads: signature, `bfOffBits` at 0x0A, `biWidth` at 0x12, `biHeight` at 0x16, `biSizeImage` at 0x22 |
| `Bmp.EncodedFieldsAt` | objLoader.cpp:99-108 | the signature and the four fields stay at those offsets whatever bytes follow the header |
| `Bmp.DecodeEncoded` | objLoader.cpp:105-111 | decoding an encoded header returns its fields; a zero image size becomes `width*height*3` mod 2^32 and a zero data offset becomes 54 |
| `Bmp.Le32BytesOf` | objLoader.cpp:105-108 | any four bytes are the little-endian encoding of the number read from them |
| `Bmp.DecodeReadsOnlyFields` | objLoader.cpp:99-111 | two files of at least 54 bytes that agree on the signature and the four fields at 0x0A, 0x12, 0x16 and 0x22 decode alike, whatever their other bytes |
| `Bmp.DecodeAsEncoded` | objLoader.cpp:99-111 | every accepted file decodes to its own raw fields at 0x0A, 0x22, 0x12 and 0x16, with the defaults applied to a zero data offset or image size |
| `Bmp.ImageSizeWraps` | objLoader.cpp:110 | the default image size is computed in 32-bit unsigned arithmetic, so 65536 x 65536 gives 0 |
| `Bmp.ReadFrom` | objLoader.cpp:114-115 | the pixel buffer has exactly `imageSize` bytes; bytes beyond the end of the file stay 0 |
| `Bmp.LoadBmpAsWritten` | objLoader.cpp:88-116 | fails exactly when the file cannot be opened or the header is rejected; otherwise the image carries the header's width and height, and pixel byte `i` is file byte `54 + i`, or 0 past the end of the file (`imageSize` bytes in all) |
| `Bmp.AsWrittenShiftsPixels` | objLoader.cpp:114-115 | as written, bytes between the header and `dataPos` are returned as pixels, and as many pixel bytes at the end are lost |
| `Bmp.AsWrittenReadsGap` | objLoader.cpp:105-115 | a concrete file with data offset 58 loads its 4-byte gap as the pixels |
| `Bmp.LoadBmp` | objLoader.cpp:88-116 | the corrected loader: same acceptance and dimensions, and pixel byte `i` is file byte `dataPos + i`, or 0 past the end of the file (`imageSize` bytes in all) |
| `Bmp.LoadBmpRoundTrip` | objLoader.cpp:105-115 | with the correction, a header, any gap up to `dataPos` and then the pixels load back as exactly those pixels |
| `Bmp.AgreeWithoutGap` | objLoader.cpp:111-115 | when `dataPos` is 54 the as-written and corrected loaders agree |

## Findings

| source | as written | input that shows it | evidently intended | confidence | as-written member | corrected member |
|---|---|---|---|---|---|---|
| objLoader.cpp:105-115 | `dataPos` is computed, and defaults to 54, but is never used to seek; the pixel bytes are read straight after the 54-byte header | a 1x1 bitmap with `bfOffBits = 58`, 4 bytes `9 9 9 9` after the header, then pixel bytes `1 2 3 4`: the loader returns `9 9 9 9` | read the pixel bytes starting at `dataPos` | medium, not executed | `Bmp.LoadBmpAsWritten` (shown by `Bmp.AsWrittenReadsGap`) | `Bmp.LoadBmp` (proved by `Bmp.LoadBmpRoundTrip`) |

## Left out

- Rendering and all OpenGL/GLUT calls are left out as presentation: `Render*`, `RenderModel`, lighting, material and projection set-up, the GL part of `myInit`, `Reshape`, `Motion`, `Mouse`, and `glutPostRedisplay`. So is `Display`, whose only change to the model's state is its call to `UpdatePositions`, which is modelled.
- The GL texture upload in `LoadBMP`, and the texture name it returns, are left out. The model returns the decoded image instead.
- `main`, `LoadAssets`, `Model_3DS`, `GLTexture` and `TextureBuilder` are left out as asset and process start-up. Their sources are not part of this model.
- Escape calls `exit(0)` in the source. `Game.World.Keyboard` returns `quit = true` instead and changes nothing.
- `rand()` and `srand(time(0))` are left out. The values `rand()` returns are an input sequence, and the model applies `% xCount` to them.
- File I/O (`ifstream`, `fopen`, `fread`) is left out. An OBJ file is a sequence of pre-tokenised lines, and a BMP file is a byte sequence.
- Tokenising with `istringstream` is left out. A number or corner missing from a line reads as 0 in the model. In the source it is a failed stream extraction, whose value is not reliable.
- `Obj.Mesh.LoadObj` computes indices in unbounded integers. The 32-bit wrap-around of `(index - 1) * 3` (and `* 2` for texture coordinates) is not modelled. It needs an index above 1431655766, so a list with more than 2^32 values.
- Float rounding is not modelled. Positions are `real`s, and the accumulation of 0.005 and 0.006 is exact in the model.
- Some globals take no part in the world-state logic: `Up`, `bananaPositionZ` (never read), `cameraZoom`, the window size and the projection parameters.
- The `std::cerr` diagnostics of `LoadOBJ` (objLoader.cpp:23, 80-82) and `LoadBMP` (objLoader.cpp:95, 100, 129) are left out as logging.
- The keyboard callback's mouse coordinates are left out, because they are unused.
