# A verified model of the ray tracer's core

This project models, in Dafny, the core of a small OpenGL ray tracer. The
model has five modules:

- **`Strings`** (`strings.dfy`) is the growable, NUL-terminated string
  class `String<T>`. A capacity the class computes itself is the least power
  of two above the length, and appending doubles the old capacity until it
  suffices; an adopted buffer keeps the caller's capacity, and a string
  without a buffer has capacity 0. The model covers construction, copy and move, assignment,
  equality, concatenation, appending, `truncate`, and the substring searches
  `findFirst`, `findFirstKMP` and `find`.
- **`StringSearch`** (`string_search.dfy`) holds what those searches
  promise. It defines where a pattern occurs, gives the C library's `strstr`
  as a reference definition, and proves the border facts behind the KMP
  failure table.
- **`Bmp`** (`bmp.dfy`) is the 24-bit Windows bitmap reader. It covers:
  - the packed 54-byte little-endian header;
  - the `checkType` signature test;
  - the 4-byte row stride;
  - the row loop of `readBMP`, which drops each row's padding.
- **`CameraInput`** (`scene_input.dfy`) is the camera state of `Transform`.
  It covers the perspective height, the decaying scroll accumulator, the
  arrow keys, the dragged mouse, and the `operate` step that combines them
  once per frame.
- **`SceneModel`** (`scene_model.dfy`) is the geometry model. It covers:
  - seven collections of scene objects, each with the flags that control its
    GPU buffer;
  - the triangles' two buffers;
  - the count record that tells the shaders how many objects of each kind
    exist;
  - `Model::dataInit`, which uploads what changed and publishes new counts;
  - `addCylinder` and `addCone`, which also add the end-cap discs.

  OpenGL buffer calls are recorded as a ghost log of upload events, so the
  model can state which buffers one `dataInit` reallocates or refreshes.

Floating point is modelled with `real`. Unsigned counters are modelled with
`nat`, and 32-bit wrap-around is written out only where it matters (see
Findings).

A mouse-button event (`RayTracing/_RayTracing.h:258-267`) only sets the
button's flag and never touches the pointer samples; releasing the button
does not by itself reset a drag. `CameraInput.Mouse.RefreshButton` models
exactly that.

## Model

| member | source | states |
|---|---|---|
| StringSearch.FirstOccurrenceUnique | _String.h:777-792 | the first occurrence that `findFirst` reports is unique: two first-occurrence indices of the same pattern are equal |
| StringSearch.Strstr | _String.h:777-792 | reference for `strstr` from a start position: the result is -1 exactly when no occurrence starts at or after the start; otherwise it is an occurrence with none between the start and it |
| StringSearch.SliceMatch | _String.h:815-817 | comparing the text slice with the pattern is the same as the pattern occurring at that index |
| StringSearch.StrstrIsFirstOccurrence | _String.h:777-792 | `strstr` from position 0 gives the first occurrence, or -1 when there is none |
| StringSearch.BorderOfBorder | _String.h:800-801 | a border of a border of `p[..j]` is a border of `p[..j]`, which is why following `next` from a border stays on borders |
| StringSearch.ShorterBorder | _String.h:800-801 | of two borders of `p[..j]`, the shorter is a border of the longer |
| StringSearch.BorderShrink | _String.h:802-804 | a non-empty border of `p[..j+1]` minus its last character is a border of `p[..j]`, and that last character equals `p[j]` |
| StringSearch.BorderGrow | _String.h:802-804 | a border of `p[..j]` followed by `p[j]` (or the empty match -1) grows into a border of `p[..j+1]` |
| StringSearch.NextEntryStep | _String.h:802-805 | the entry `getNext` stores for position `c0` (either `c1`, or `next[c1]` when `p[c0] == p[c1]`) is a correct optimised-KMP entry: a border followed by a different character, with every longer border followed by `p[c0]` |
| StringSearch.FallbackKeepsBorders | _String.h:800-801 | after a mismatch, falling back to `next[c1]` skips no border that `p[c0]` could extend |
| StringSearch.LongestBorderGrow | _String.h:799-804 | once the fallback loop ends, `c1 + 1` is the longest proper border of `p[..c0+1]` |
| StringSearch.MismatchShift | _String.h:813-818 | on a mismatch at `text[c0]`, jumping to `next[c1]` skips no occurrence, and the shorter prefix still matches before `c0` |
| StringSearch.MismatchNoOccurrence | _String.h:813-818 | each start skipped by that jump holds no occurrence |
| StringSearch.OccurrenceOverlap | _String.h:813-818 | an occurrence that starts inside a partial match overlaps it in a border of the matched prefix |
| Strings.Pow2Monotone | _String.h:196-197 | doubling: a larger exponent gives at least twice the power |
| Strings.SnugCapacityIsLeast | _String.h:196-197 | the capacity loop yields the least power of two that exceeds the length |
| Strings.Capacity | _String.h:196-197 | the doubling loop starting at 1 ends at the least power of two greater than the length |
| Strings.Grow | _String.h:646-654 | regrowth doubles the old capacity until it exceeds the need; the result exceeds the need, is the old capacity times a power of two, and is never more than twice the need unless no growth was needed |
| Strings.StrcmpEqualIffSame | _String.h:350-374 | `strcmp(a, b) == 0` on NUL-terminated copies holds exactly when the character sequences are equal |
| Strings.TruncatedLength | _String.h:968 | the kept length never runs past the end; it is the requested length unless that is negative or too long, in which case the tail from `head` is kept |
| Strings.AppendStringHasBuffer | _String.h:597-605 | as written, `+=` reaches a buffer only when the string already has one or the new length is at least 1 |
| Strings.AppendEmptyToBufferlessWritesThroughNull | _String.h:597-605 | appending an empty string to a string without a buffer writes the terminator through a null pointer, and only that append does |
| Strings.AssignCopySource | _String.h:330-348 | as written, `operator=` copies from the source only when it is not self-assignment and the source has a buffer; under self-assignment it copies its own fresh buffer, otherwise from null |
| Strings.AssignAsWrittenLosesContents | _String.h:330-348 | as written, self-assignment copies from the freshly allocated buffer instead of the contents, and assigning from a bufferless string copies from a null pointer |
| Strings.NextGuardAsWritten | _String.h:798 | the table loop's guard `c0 < length - 1` on unsigned `length`: for an empty pattern `length - 1` wraps to 2^32 - 1 |
| Strings.EmptyPatternEntersTableLoop | _String.h:793-807 | for an empty pattern the guard admits the loop on its first and second iterations, so the loop writes past the zero-byte table |
| Strings.Wrap32 | _String.h:968 | 32-bit signed wrap-around: the result is in range, congruent to the input modulo 2^32, and equal to the input when it already fits |
| Strings.TruncatedLengthAsWritten | _String.h:966-968 | as written, `truncate`'s length clamp computes `_head + _length` in 32-bit `int`; it agrees with the intended clamp whenever that sum does not overflow |
| Strings.TruncateOverflowOverrunsEnd | _String.h:968 | `truncate(1, INT_MAX)` on a 5-character string keeps `INT_MAX` characters, past the end of the string |
| Strings.String.Empty | _String.h:109-111 | the default string has no buffer |
| Strings.String.FromChars | _String.h:191-209 | copies the characters and sizes the buffer to the least power of two above the length |
| Strings.String.Adopt | _String.h:210-241 | takes over a buffer; a zero length is measured and a zero capacity becomes the snug power of two, otherwise the given capacity is kept |
| Strings.String.Copy | _String.h:135-158 | the copy has the same contents, length and capacity (and no buffer when the source has none) |
| Strings.String.Move | _String.h:159-166 | the new string takes the contents, length and capacity; the source is left without a buffer |
| Strings.String.Assign | _String.h:330-348 | after assignment the string holds the source's contents, length and capacity, including for self-assignment and a bufferless source |
| Strings.String.Equals | _String.h:350-374 | two strings compare equal exactly when their contents are equal |
| Strings.String.ConcatChars | _String.h:481-535 | a new string holding this string's contents followed by the characters, with a snug capacity |
| Strings.String.Concat | _String.h:428-480 | a new string holding both contents in order, with a snug capacity |
| Strings.String.AppendChars | _String.h:638-686 | the contents become old contents plus the characters; the capacity is kept while it suffices and otherwise doubles until it exceeds the new length |
| Strings.String.AppendString | _String.h:593-637 | the contents become old contents plus the operand's, with the same capacity rule, including for an empty operand on a string without a buffer |
| Strings.String.AppendChar | _String.h:736-775 | one character is appended; a capacity of 0 counts as 1 before doubling |
| Strings.String.Truncate | _String.h:964-974 | an out-of-range head gives an empty result; otherwise the result is the clamped substring starting at `head` with a snug capacity |
| Strings.String.FindFirst | _String.h:777-792 | the index of the first occurrence of the pattern, or -1 when it does not occur |
| Strings.String.GetNext | _String.h:793-807 | the failure table has one entry per pattern character and each entry is a correct optimised-KMP entry |
| Strings.String.NextTable | _String.h:793-807 | the same for any non-empty pattern: every entry satisfies the optimised-KMP entry property |
| Strings.String.FallBack | _String.h:800-801 | the inner fallback loop ends at the longest border that `p[c0]` extends, or -1 when there is none |
| Strings.String.Kmp | _String.h:808-821 | the KMP scan returns the first occurrence of a non-empty pattern, or -1, also in a text without a buffer |
| Strings.String.FindFirstKmp | _String.h:822-833 | agrees with `strstr`: the first occurrence, 0 for an empty pattern, -1 when there is none, also in a text without a buffer |
| Strings.String.Find | _String.h:852-906 | the reported indices are strictly increasing and are exactly the starts of all occurrences, overlapping ones included; for an empty pattern, every index from 0 to the length |
| Strings.EmptyPatternFindResumesPastEnd | _String.h:859-865 | with an empty pattern `strstr` finds a hit at every start up to the length, so `find` as written never stops inside the string and resumes past its end |
| Bmp.U16Bytes | _BMP.h:8-24 | little-endian encoding of a 16-bit header field reads back as the same value |
| Bmp.U32Bytes | _BMP.h:8-24 | little-endian encoding of a 32-bit header field reads back as the same value |
| Bmp.U16BytesOfRead | _BMP.h:8-24 | re-encoding a 16-bit field read from the file reproduces its two bytes |
| Bmp.U32BytesOfRead | _BMP.h:8-24 | re-encoding a 32-bit field read from the file reproduces its four bytes |
| Bmp.WordsAt | _BMP.h:8-24 | each packed 32-bit field sits at its own offset in the encoded run of fields |
| Bmp.WordsOfRead | _BMP.h:8-24 | a run of fields read from consecutive offsets re-encodes to exactly those bytes |
| Bmp.LeadingWordAt | _BMP.h:8-24 | each of the six 32-bit fields after `type` sits at offset 2 + 4k of the header |
| Bmp.TrailingWordAt | _BMP.h:8-24 | each of the six 32-bit fields after `bitCount` sits at offset 30 + 4k of the header |
| Bmp.EncodeHeader | _BMP.h:8-24 | the packed header is exactly 54 bytes long |
| Bmp.ParseEncodeHeader | _BMP.h:58 | reading the 54 bytes of an encoded header gives back the header |
| Bmp.EncodeParseHeader | _BMP.h:58 | re-encoding a parsed header reproduces the file's first 54 bytes |
| Bmp.CheckTypeOfFile | _BMP.h:76-79 | `checkType` holds exactly when the file starts with the bytes 'B' 'M' |
| Bmp.LineWidthIsPadding | _BMP.h:60-64 | the row stride is the least multiple of 4 that is at least three bytes per pixel; it equals 3·width exactly when width is a multiple of 4, and it is a whole number of 4-byte reads |
| Bmp.ThreeTimesMod4 | _BMP.h:61 | the `width * 3 % 4` test is the same as width being a multiple of 4 |
| Bmp.RowWriteInBounds | _BMP.h:95-106 | each row read, padding included, fits in the `3·w·h + 4` byte image buffer |
| Bmp.RowRead | _BMP.h:99 | one row read takes at most one stride of the file, and a full stride when the file holds the row |
| Bmp.ReadRows | _BMP.h:95-106 | the image buffer has `3·w·h + 4` bytes, and every row present in the file is copied to offset `3·w·r` without its padding |
| Bmp.FillRows | _BMP.h:95-106 | the row loop copies every row present in the file, without its padding, to offset `3·w·r` of the buffer |
| Bmp.RowStep | _BMP.h:95-106 | the next row read keeps every earlier row and copies row `c0` |
| Bmp.NewRowCopied | _BMP.h:99 | after the read of row `c0`, its `3·w` pixel bytes in the buffer equal the row in the file |
| Bmp.EarlierRowUntouched | _BMP.h:95-106 | writes past an earlier row's bytes leave that row intact |
| Bmp.CopyInto | _BMP.h:99 | `fread` into the buffer replaces exactly the target range and leaves the rest alone |
| Bmp.ReadBmp | _BMP.h:87-109 | `readBMP`: the header is parsed from the first 54 bytes, and the rows from the pixel offset on are copied without padding |
| Bmp.PixelBytes | _BMP.h:94 | the pixel data is the file from its data offset, or nothing when the offset is past the end |
| Bmp.TextureData | _BMP.h:66-67 | `textureData` reads at most `stride·height` bytes from the pixel data, as a prefix, and exactly that many when the file holds them |
| Bmp.TextureHoldsPaddedRows | _BMP.h:60-67 | in the texture buffer, row `r` sits at offset `stride·r` with its padding kept |
| CameraInput.Abs | RayTracing/_RayTracing.h:153-161 | the magnitude used by the scroll threshold is non-negative and equals the value or its negation |
| CameraInput.Perspective.constructor | RayTracing/_RayTracing.h:101-106 | the default perspective height is 1024 and it is not updated |
| CameraInput.Perspective.FromData | RayTracing/_RayTracing.h:107-113 | the height comes from the configuration and it is not updated |
| CameraInput.Perspective.Init | RayTracing/_RayTracing.h:116-120 | `init` takes the window height and clears the update flag |
| CameraInput.Perspective.Refresh | RayTracing/_RayTracing.h:121-125 | a resize takes the new height and marks the perspective updated |
| CameraInput.Decay | RayTracing/_RayTracing.h:153-161 | an accumulated scroll larger than the threshold is scaled by the ratio; a smaller one is kept |
| CameraInput.ScrollOutput | RayTracing/_RayTracing.h:153-161 | the scroll step is nonzero only above the threshold, and then it is the decayed total; with a nonzero ratio it is nonzero there |
| CameraInput.RestIsPermanent | RayTracing/_RayTracing.h:153-161 | once the total is within the threshold, further frames neither change it nor move the camera |
| CameraInput.DecayShrinks | RayTracing/_RayTracing.h:153-161 | with a ratio between 0 and 1, any number of frames never increases the magnitude of the total |
| CameraInput.Scroll.constructor | RayTracing/_RayTracing.h:133-140 | defaults 0.05, 0.95 and 0.01, with the total starting at the threshold, so the first `operate` reports no motion and leaves the total at rest |
| CameraInput.Scroll.FromData | RayTracing/_RayTracing.h:141-148 | the constants come from the configuration, with the total starting at the threshold |
| CameraInput.Scroll.Refresh | RayTracing/_RayTracing.h:149-152 | a wheel event adds `d·increaseDelta` to the total and changes nothing else |
| CameraInput.Scroll.Operate | RayTracing/_RayTracing.h:153-161 | returns the scroll output of the old total and decays the total |
| CameraInput.KeyAxis | RayTracing/_RayTracing.h:198-206 | an axis is 0 when both or neither key is held, and plus or minus the ratio when one is held |
| CameraInput.Key.constructor | RayTracing/_RayTracing.h:170-186 | no key is held, and the ratio is the one given (0.05 by default) |
| CameraInput.Key.Refresh | RayTracing/_RayTracing.h:188-197 | a key event sets the matching arrow's flag to pressed or released and leaves the others alone |
| CameraInput.Key.Operate | RayTracing/_RayTracing.h:198-206 | the horizontal and vertical axes follow `KeyAxis`: opposite keys cancel |
| CameraInput.DragDelta | RayTracing/_RayTracing.h:268-276 | the drag is zero unless both samples are valid, and then it is the y difference and the x difference |
| CameraInput.Mouse.constructor | RayTracing/_RayTracing.h:226-234 | no valid pointer samples and no button held |
| CameraInput.Mouse.RefreshPos | RayTracing/_RayTracing.h:235-257 | with the left button up, both samples are invalidated; with it down, the new position becomes the current sample and the old current sample (if valid) becomes the previous one |
| CameraInput.Mouse.RefreshButton | RayTracing/_RayTracing.h:258-267 | a button event sets only that button's flag; the samples are untouched |
| CameraInput.Mouse.Operate | RayTracing/_RayTracing.h:268-276 | returns the drag between the two samples and invalidates the previous one, so the drag then reads as zero and is not reported twice |
| CameraInput.Transform.constructor | RayTracing/_RayTracing.h:312-323 | default camera: depth 500, perspective 1024 not updated, scroll at rest, no drag, no keys |
| CameraInput.Transform.FromData | RayTracing/_RayTracing.h:324-336 | the camera takes its perspective, scroll, key and depth settings from the configuration, at rest and not updated |
| CameraInput.Transform.Init | RayTracing/_RayTracing.h:337-343 | `init` sets the perspective height and marks the camera updated |
| CameraInput.Transform.Resize | RayTracing/_RayTracing.h:344-347 | a resize updates the perspective height and marks it for reprojection |
| CameraInput.Transform.Operate | RayTracing/_RayTracing.h:353-381 | translates when a key or the scroll moves, rotates exactly when there is a drag, reprojects exactly when the perspective was updated, and marks the camera updated when any of these happen; it also decays the scroll and consumes the drag, and keeps the scroll settings, the mouse buttons and the current pointer sample |
| SceneModel.UploadsFor | RayTracing/_RayTracing.h:450-461 | a count change reallocates the buffer and nothing else (both triangle buffers, origin first, for the triangles); otherwise stale contents are refreshed; a clean collection uploads nothing; no collection uploads the count record |
| SceneModel.NoSummaryAmongCollections | RayTracing/_RayTracing.h:960-966 | the seven collection uploads never include the count record |
| SceneModel.SummaryUploadedOnceIffChanged | RayTracing/_RayTracing.h:957-1013 | in one `Model::dataInit` the count record is uploaded once if some count changed, and not at all otherwise |
| SceneModel.CleanCollectionsUploadNothing | RayTracing/_RayTracing.h:960-966 | collections with clean flags issue no uploads |
| SceneModel.CleanCycleIsSilent | RayTracing/_RayTracing.h:957-1013 | a `dataInit` that starts with every collection clean uploads nothing |
| SceneModel.ReallocIffCountChanged | RayTracing/_RayTracing.h:957-1013 | a collection's buffer is reallocated in a cycle exactly when its count changed |
| SceneModel.ReallocFrom | RayTracing/_RayTracing.h:960-966 | among the collections from slot `i` on, slot `j`'s buffer is reallocated exactly when its count changed |
| SceneModel.NoReallocOfEarlierSlot | RayTracing/_RayTracing.h:960-966 | later collections never reallocate an earlier collection's buffer |
| SceneModel.EmptyCollection | RayTracing/_RayTracing.h:442-449 | a new collection is empty; planes start clean and every other kind starts with a changed count and stale contents |
| SceneModel.CollectionDataInit | RayTracing/_RayTracing.h:660-673 | a collection's `dataInit` issues the uploads its flags call for and leaves its contents up to date; `GPUUpToDate` survives only when nothing was uploaded |
| SceneModel.TrianglesDataInit | RayTracing/_RayTracing.h:538-555 | the triangles' `dataInit` sizes the derived buffer to the originals after a count change and leaves the originals up to date; the derived data stays current only when nothing was uploaded and the scene is non-empty |
| SceneModel.Model.constructor | RayTracing/_RayTracing.h:945-956 | a new model is empty, uploads nothing, has zero counts except the uninitialised cone count, and only the planes start clean |
| SceneModel.CollectionCycle | RayTracing/_RayTracing.h:967-1008 | a collection's `dataInit` followed by publishing its count leaves it clean with the same items, and its record entry holds the actual count, changed only if the count changed |
| SceneModel.TrianglesCycle | RayTracing/_RayTracing.h:973-978 | the same for the triangles, whose derived buffer also ends sized to the originals |
| SceneModel.UploadAll | RayTracing/_RayTracing.h:960-966 | the seven collection `dataInit` calls, in order, issue exactly the uploads their flags call for, slot by slot |
| SceneModel.CycleIssuesUploads | RayTracing/_RayTracing.h:957-1013 | one `Model::dataInit` issues the collections' uploads in order, then the count record once if and only if some count changed |
| SceneModel.CycleCleansAll | RayTracing/_RayTracing.h:957-1013 | after one `Model::dataInit` every collection's count flag is clear and its contents are up to date |
| SceneModel.CyclePublishesCounts | RayTracing/_RayTracing.h:957-1013 | on a consistent model, after one `Model::dataInit` the count record equals the actual counts and no collection's items changed |
| SceneModel.CycleKeepsValid | RayTracing/_RayTracing.h:957-1013 | one `Model::dataInit` keeps the model consistent: each record entry is right and the derived triangle buffer is sized to the originals |
| SceneModel.CycleRecordChangesOnlyOnChange | RayTracing/_RayTracing.h:957-1013 | the count record changes only if some collection's count changed |
| SceneModel.CycleTwiceIsSilent | RayTracing/_RayTracing.h:957-1013 | with nothing added in between, a second `Model::dataInit` uploads nothing |
| SceneModel.Model.DataInit | RayTracing/_RayTracing.h:957-1013 | replaces the members by one whole cycle and appends exactly that cycle's uploads, keeping the model consistent; the cycle lemmas above state what that cycle does |
| SceneModel.Model.AddCylinder | RayTracing/_RayTracing.h:1014-1041 | appends the cylinder and its two end-cap discs (bottom facing `-n` at `c`, top facing `n` at `c + n·l`), and marks both collections' counts changed; every other member and the upload log stay as they were |
| SceneModel.Model.AddCone | RayTracing/_RayTracing.h:1042-1057 | appends the cone's base disc at `c + n·sqrt(l2·c2)` with squared radius `l2·(1 - c2)`, then the cone, and marks both counts changed; every other member and the upload log stay as they were |

## Left out

- Conversions between character types (`String<R>` with `R` other than `T`), `operator T*`, `print`, `printInfo` and the destructor are left out. The model has one character type, and the other members do no string logic.
- `malloc`, `realloc` and `free` are not modelled as calls. A buffer is its contents plus a capacity. In the adopting constructor, nulling the caller's pointer is not modelled.
- Strings.String.Move: the moved-from string keeps its length and capacity with no buffer, as the source does. It is therefore outside the `Valid` invariant, and the model says nothing further about it.
- Strings.String.AppendChar: appending the NUL character is not modelled (`requires c != '\0'`). The source would then store a terminator inside the string.
- Strings.String.Equals: requires both strings to have buffers, because the source passes both to `strcmp`, which would read through a null pointer (`String<char>() == String<char>()`, `_String.h:354`).
- Strings.String.FindFirst, Strings.String.Find: each requires both strings to have buffers, because the source passes both straight to `strstr`. Strings.String.Kmp and Strings.String.FindFirstKmp require a buffer only for the pattern, which `getNext` indexes. Kmp also requires a non-empty pattern; the empty pattern is covered by FindFirstKmp and by the Findings.
- Unsigned 32-bit wrap-around of lengths, capacities and counts is not modelled, except in the Findings. Neither is wrap-around of the `3u*w*h + 4` buffer size in `readBMP`.
- Opening, seeking and reading files are modelled by slicing the file's bytes. A file shorter than the 54-byte header is outside `ParseHeader`'s precondition. Unlike the source, the model does not read an indeterminate header from it.
- Bmp.RowRead: when the file ends inside a 4-byte item, `fread` may store that item's leading bytes, whose values C leaves indeterminate; the model leaves those buffer bytes untouched.
- The second `readBMP` overload (`_BMP.h:110-133`) repeats the first on a named file, so it is not modelled separately.
- Floating point is idealised as `real`. `sqrtf(l2·c2)` in `addCone` is supplied by the caller as the parameter `root`.
- The unsigned `Perspective::y` is modelled as `int`: the source converts the `int` height without checking it.
- The matrices and vectors of `Transform` are not modelled: `dr`, `trans`, `fovy`, `z0`, `calcAns` and `BufferData`. `operate` is modelled by which of its three effects happen (ghost outputs `translated`, `rotated`, `reprojected`), not by the rotation and translation arithmetic.
- CameraInput.Transform.Operate: the source's tests `dxyz != 0.0` and `axis != 0.0` (`RayTracing/_RayTracing.h:359` and `:364`) compare a vector with a scalar. The model reads each as "some component is nonzero".
- The pointer sample's coordinates start indeterminate in the source. In the model they are arbitrary values behind `valid == false`.
- OpenGL buffer calls (`dataInit`, `refreshData`, binding and the shaders) are recorded as ghost upload events and not executed.
- Setting `GPUUpToDate` to true happens outside this code (after the GPU pass), so it is not modelled.
- The conversion of planes from `vec3` to `vec4` and the layout padding of the GPU records are not modelled.
- Collections are values: the C++ members are held by value inside `Model`, so aliasing does not arise. `Model` keeps its seven collections and its count record as one `Scene` value field that each method replaces, rather than as eight fields updated one by one; the order of those updates within one call is not modelled.
- SceneModel.Model.constructor: `Num()` never initialises `coneNum`. The model takes the indeterminate start value as the parameter `coneNum0` instead of fixing one.

## Findings

| source | as written | input that shows it | evidently intended | confidence | as-written member | corrected member |
|---|---|---|---|---|---|---|
| _String.h:597-605 | `+=` with a `String` turns a zero capacity into 1 without allocating, reallocates only when the capacity does not exceed the combined length, then writes the terminator through the string's buffer | appending an empty string to a string without a buffer writes through a null pointer | the result is an empty string with its own buffer | not executed | Strings.AppendEmptyToBufferlessWritesThroughNull | Strings.String.AppendString |
| _String.h:330-348 | `operator=` frees its own buffer and allocates a new one before copying from the source's data, and copies even when that data is null | self-assignment `s = s` copies from the fresh, uninitialised buffer; assigning from a string without a buffer copies from a null pointer | the string ends up with the source's contents | not executed | Strings.AssignAsWrittenLosesContents | Strings.String.Assign |
| _String.h:798 | `getNext`'s loop guard `c0 < length - 1` uses unsigned `length` | an empty pattern: `length - 1` wraps to 2^32 - 1, so the loop runs and writes past the zero-byte table | an empty pattern matches at 0 without a table | not executed | Strings.EmptyPatternEntersTableLoop | Strings.String.FindFirstKmp |
| _String.h:859-865 | `find` resumes each search at `data + tempAddress + 1` and stops only when `strstr` returns null | an empty pattern on `"ab"`: hits at 0, 1 and 2, then `strstr(data + 3, "")` starts past the terminator and reads outside the buffer | the hits 0 to the length, then stop | not executed | Strings.EmptyPatternFindResumesPastEnd | Strings.String.Find |
| _String.h:968 | the clamp tests `_head + _length > length` in 32-bit `int` | `truncate(1, INT_MAX)` on a 5-character string: the sum overflows to a negative value, the clamp is skipped, and INT_MAX characters are copied | the length is clamped to the tail from `head` | not executed | Strings.TruncateOverflowOverrunsEnd | Strings.String.Truncate |
