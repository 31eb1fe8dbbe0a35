# nbodysim_render, modelled in Dafny

`nbodysim_render` turns the binary snapshots an n-body simulation writes
(`./data/0000.dat`, `./data/0001.dat`, ...) into PNG pictures
(`./img/0000.png`, ...). Its whole core lives in `src/main.cpp`, and the
model covers it as follows:

- **Defaults.** The settings record starts from `set_default`.
- **Settings file.** `read_settings` reads the file as a sequence of words.
- **Frame loop.** For frames 0, 1, 2, ... `main` does the following:
  - `read_data` loads the frame's particles into a fresh particle set.
  - `write_image` projects each particle onto the image plane and zooms it.
  - The point is then culled or clamped into the image, and flipped for the isometric camera.
  - Its brightness is added to a floating-point buffer, while a running maximum is kept.
  - An optional square-root pass follows.
  - Every cell is colored with a grayscale or a heat palette.
  - The loop stops at the first missing snapshot or after `num_frames` frames.

The model follows the program's structure, one module per concern:

| file | module | what it holds |
|---|---|---|
| `outcomes.dfy` | `Outcomes` | `Option` and `Result` |
| `clamping.dfy` | `Clamping` | `clamp` |
| `particles.dfy` | `Particles` | a particle as the renderer sees it: its position |
| `filenames.dfy` | `FileNames` | `gen_filename`, `gen_image`, and their round trips |
| `snapshot.dfy` | `Snapshot` | the particle set and `read_data`, over a map from file names to bytes |
| `render.dfy` | `Render` | projection, zoom, cull, clamp, flip, the accumulation buffer and the running maximum |
| `color.dfy` | `Color` | intensity levels and the two palettes |
| `image.dfy` | `Image` | `write_image` as a whole |
| `config.dfy` | `Config` | the settings record, `set_default` and `read_settings` |
| `sequencer.dfy` | `Sequencer` | `main`'s frame loop |

Code that changes state is modelled as imperative Dafny:

- The particle set is a class whose `members` sequence `Insert` extends.
- The accumulation buffer and the bitmap are `array2`s, filled by nested loops.
- `read_data`, `read_settings` and the frame loop are methods with loops.

Each method is proved against a specification function, and the lemmas
about those functions state what the program promises.

Behaviour of the code that the model keeps as written:

- **Cull quirk.** The cull test compares the row with `img_w - 1`, not with
  `img_h - 1` (`src/main.cpp:217`). On wide images, points below the last
  row are clamped onto it, so they pile up on the first row after the
  isometric flip (`Render.RowsBelowImagePileUp`). On tall images, rows past
  `img_w - 1` are dropped (`Render.RowsPastWidthDropped`).
- **Heat palette.** An empty cell is pure blue under the heat palette, not
  black (`Color.EmptyCellColor`). Levels 255 and 256 both give pure green
  (`Color.HeatRamp`).
- **Isometric zoom.** The isometric camera doubles the configured scale.
- **Integer centre.** The image centre is `img_w / 2` computed on unsigned
  integers.

## Model

| member | source | states |
|---|---|---|
| Clamping.Clamp | src/main.cpp:139-144 | the result lies in `[a, b]` when `a <= b`; a value already inside is returned unchanged; a value below `a` gives `a` (the lower bound wins) |
| Clamping.ClampIsNearest | src/main.cpp:139-144 | the clamped value is the point of `[a, b]` nearest to `x` |
| Clamping.ClampMonotone | src/main.cpp:139-144 | clamping keeps the order of two values |
| Clamping.ClampIdempotent | src/main.cpp:139-144 | clamping twice to the same bounds is clamping once |
| FileNames.Decimal | src/main.cpp:122 | `std::to_string` of an unsigned value: at least one digit, all digits, no leading zero unless it is "0", one character exactly for values below 10 |
| FileNames.PadFrame | src/main.cpp:122-123 | the padding loop yields the decimal text padded with zeros to four characters |
| FileNames.GenFilename | src/main.cpp:120-128 | `gen_filename` returns `./data/` + padded frame + `.dat` or `.txt` |
| FileNames.GenImage | src/main.cpp:130-137 | `gen_image` returns `./img/` + padded frame + `.png` |
| FileNames.PadTo4Shape | src/main.cpp:123 | inserting "0" while shorter than four characters puts `4 - length` zeros in front of a short text and leaves a long one alone |
| FileNames.PaddedShape | src/main.cpp:122-123 | the padded field is all digits, has length max(4, number of digits), and is the decimal text behind zeros |
| FileNames.StripPadded | src/main.cpp:122-123 | dropping the leading zeros of the padded field gives back the decimal text |
| FileNames.ValueOfDecimal | src/main.cpp:122 | the decimal text denotes the frame number |
| FileNames.ValueOfPadded | src/main.cpp:122-123 | the padded field denotes the frame number |
| FileNames.SplitPaddedName | src/main.cpp:120-137 | a directory + padded frame + four-character extension splits back into frame and extension |
| FileNames.DataFileNameRoundTrip | src/main.cpp:120-128 | the data file name determines frame and file kind |
| FileNames.DataFileNameInjective | src/main.cpp:120-128 | distinct frames or kinds get distinct data file names |
| FileNames.ImageFileNameRoundTrip | src/main.cpp:130-137 | the image file name determines the frame |
| FileNames.ImageFileNameInjective | src/main.cpp:130-137 | distinct frames get distinct image file names, so no picture overwrites another |
| Snapshot.ParticleSet.constructor | src/main.cpp:550 | a new particle set is empty |
| Snapshot.ParticleSet.Insert | src/main.cpp:165 | inserting adds exactly that particle after the existing ones |
| Snapshot.RecordCount | src/main.cpp:159 | `length / sizeof(particle)` is the number of whole records: `n * size <= length < (n + 1) * size` |
| Snapshot.RecordsLength | src/main.cpp:159-166 | the particles read are one per whole record |
| Snapshot.TrailingBytesIgnored | src/main.cpp:159-166 | bytes after the last whole record do not change what is read |
| Snapshot.ReadRecords | src/main.cpp:159-166 | the reading loop inserts the decoded whole records, in file order |
| Snapshot.ReadData | src/main.cpp:146-168 | `read_data` answers true exactly when the frame's `.dat` file exists; then the set holds that file's whole records, otherwise it stays empty; the set must be empty on entry |
| Render.Project | src/main.cpp:193-216 | the projection of each camera, zoomed about the integer-halved centre: a zoom of 1 changes nothing and the centre stays fixed |
| Render.Place | src/main.cpp:217-220 | a coordinate is dropped exactly when the cull test (row compared with the width) holds; otherwise it is clamped, flipped for the isometric camera and truncated, and lands inside the image |
| Render.Landing | src/main.cpp:193-220 | a particle that is not culled lands on a cell inside the image |
| Render.PlaceInside | src/main.cpp:217-220 | a coordinate inside both bounds lands in the cell it truncates to, with the row mirrored for the isometric camera |
| Render.RowsBelowImagePileUp | src/main.cpp:217-220 | wide image: a row past the height but within the width lands on the last row (row 0 after the isometric flip) |
| Render.RowsPastWidthDropped | src/main.cpp:217 | tall image: a row inside the image but past `img_w - 1` is culled |
| Render.IsoOrigin | src/main.cpp:192-220 | the isometric camera puts the origin of a 100x100 picture at (50, 50), flipped to row 49 |
| Render.UntouchedStaysZero | src/main.cpp:179-186 | a cell no particle lands in keeps the value 0 from the zeroing loops |
| Render.DepositedIsScaledHits | src/main.cpp:226 | a cell's value is the brightness times the number of particles landing in it |
| Render.HitsPermutation | src/main.cpp:193-227 | the number of particles landing in a cell does not depend on the visiting order |
| Render.DepositedPermutation | src/main.cpp:193-227 | a cell's final value does not depend on the order the particle set is visited in |
| Render.PeakBoundsCells | src/main.cpp:191-227 | the running maximum is never negative, stays 0 for a non-positive brightness, and is at least every cell's value |
| Render.PeakAttained | src/main.cpp:191-227 | with non-negative brightness the running maximum is 0 or the value of a cell some particle landed in |
| Render.PeakOrderFree | src/main.cpp:191-227 | the running maximum does not depend on the order of the deposits |
| Render.PeakPermutation | src/main.cpp:191-227 | the running maximum does not depend on the order the particle set is visited in |
| Render.ZeroGrid | src/main.cpp:178-186 | the buffer has `img_w` by `img_h` cells, all 0 |
| Render.Deposit | src/main.cpp:226-227 | one deposit adds the brightness to its cell only and raises the maximum to the new value if it exceeds it |
| Render.Accumulate | src/main.cpp:178-228 | after the particle loop every cell holds what the particles landing in it deposited, and `max` is the running maximum |
| Color.Level | src/main.cpp:246-252 | the level lies in `[0, top]` (255 or 511); without adaptive brightness it is the truncated cell value, capped; with it, the frame's maximum reaches the top; an empty cell has level 0 |
| Color.LevelMonotone | src/main.cpp:246-252 | a brighter cell never gets a lower level |
| Color.Channel | src/main.cpp:267-280 | `clamp(0, x, 255)` stored into a byte is a byte, and is `x` for byte values |
| Color.Byte | src/main.cpp:253-255 | an int stored into a byte channel is a byte, and is unchanged for byte values |
| Color.Shade | src/main.cpp:244-283 | grayscale puts the level in all three channels; heat runs blue to green for levels 0-255 and green to red for 256-511 |
| Color.HeatRamp | src/main.cpp:265-281 | along the heat ramp the channels sum to 255, and two levels share a color only when they are equal or are 255 and 256 |
| Color.BrightestAtPeak | src/main.cpp:244-283 | with adaptive brightness the cell at the maximum is white, or pure red under heat |
| Color.EmptyCellColor | src/main.cpp:244-283 | an empty cell is black in grayscale and pure blue under heat |
| Image.Pixel | src/main.cpp:170-285 | every pixel of the picture is a 24-bit color |
| Image.PictureOrderFree | src/main.cpp:193-285 | the picture does not depend on the order the particle set is visited in |
| Image.EmptyPixel | src/main.cpp:229-283 | a pixel no particle landed in is black in grayscale and blue under heat, also after the square-root pass |
| Image.BrightestPixel | src/main.cpp:191-283 | with adaptive brightness, positive brightness and no square-root pass, some pixel a particle landed in gets the palette's top color |
| Image.SquareRootPass | src/main.cpp:229-239 | the nonlinear pass replaces the maximum and every cell by its square root |
| Image.Colorize | src/main.cpp:240-285 | every pixel gets the palette color of its cell's level |
| Image.WriteImage | src/main.cpp:170-292 | `write_image` saves under `gen_image(frame)` an `img_w` by `img_h` picture whose every pixel is the color the particle set gives that cell |
| Config.Default | src/main.cpp:294-339 | `set_default` gives a drawable 1920x1080 isometric grayscale setting of 300 frames, with adaptive and nonlinear brightness off |
| Config.DefaultOriginLanding | src/main.cpp:192-220 | under the defaults the origin lands at column 960, row 539 |
| Config.ProjectionKeyword | src/main.cpp:478 | the word chain takes `projection` to the projection setting |
| Config.ColorKeyword | src/main.cpp:488 | the word chain takes `color` to the palette setting |
| Config.StrayWords | src/main.cpp:518-519 | the word chain names no setting for `true` and `false` |
| Config.SetChoice | src/main.cpp:451-495 | a listed-word setting fails exactly on a word off its list, naming the setting and the word; otherwise no flag, count or amount changes |
| Config.ProjectionWords | src/main.cpp:478-487 | `front`, `side`, `top`, `iso` name the four projections one to one |
| Config.ColorWords | src/main.cpp:488-495 | `bw` and `heat` name the two palettes one to one |
| Config.StepPrefix | src/main.cpp:348-521 | one pass looks only at its own words |
| Config.ApplyAppend | src/main.cpp:348-521 | reading `a + b` is reading `a`, then `b` on top of the result, unless `a` already failed |
| Config.StrayWordSkipped | src/main.cpp:518-520 | a word naming no setting, stray `true` and `false` among them, is skipped without effect |
| Config.StepOverwrites | src/main.cpp:351-517 | a second pass over a one-value setting replaces what the first stored |
| Config.LaterOverrides | src/main.cpp:351-517 | when a one-value setting is given twice in a row, the whole result is as if only the second mention were there |
| Config.StepValue | src/main.cpp:351-517 | one pass stores into the setting its first word names what the words after it give (a flag is on iff the next word is `true`, a number is the next word read as one, a listed word its value, the rotation vector the next three words) and leaves every other setting alone |
| Config.KeyUntouched | src/main.cpp:348-521 | a setting that no pass of the loop names keeps its value, for flags, counts, amounts, listed-word settings and the rotation vector alike |
| Config.KeyFinal | src/main.cpp:348-521 | the last mention wins: after a successful read, every setting holds what its last mention stored, whatever words came in between; a listed-word setting's last word was on its list |
| Config.FlagFinal | src/main.cpp:351-440 | a flag is on after reading exactly when the word after its last mention is `true` |
| Config.ChoiceOnlyListed | src/main.cpp:451-495 | a listed-word setting followed by a word off its list stops the reading with that failure; a listed word is stored and reading goes on |
| Config.ReadPass | src/main.cpp:350-520 | one pass of the loop dispatches on the word and reads the words that follow it |
| Config.NextPass | src/main.cpp:350-520 | the next pass starts after the words the current one consumed, never past the end |
| Config.ApplyOnePass | src/main.cpp:348-521 | reading from a word is one pass, then reading on from where it left off, or the pass's failure |
| Config.ReadSettings | src/main.cpp:341-528 | `read_settings` leaves the record the pass-by-pass reading gives, or stops at the first rejected word |
| Sequencer.StopAt | src/main.cpp:548-558 | one turn of the frame loop stops at a missing snapshot and otherwise goes on to the next frame |
| Sequencer.StopFromBounds | src/main.cpp:548-558 | the loop stops at `num_frames` or at a missing snapshot and never passes one |
| Sequencer.FramesRenderedIsFirstStop | src/main.cpp:548-558 | the number of pictures is the one `n <= num_frames` such that frames `0 .. n-1` exist and frame `n` is missing unless `n` is `num_frames` |
| Sequencer.PictureOf | src/main.cpp:240-285 | a picture has `img_w` columns of `img_h` pixels |
| Sequencer.Saved | src/main.cpp:286 | saving the bitmap keeps the color of every pixel |
| Sequencer.RenderFrame | src/main.cpp:550-554 | one turn reads frame `k` into a fresh set and, when the snapshot exists, draws its picture and names it `gen_image(k)` |
| Sequencer.RenderFrames | src/main.cpp:548-561 | `main` writes `./img/0000.png`, ... for exactly the frames before the first stop, in order, and frame `k`'s picture is drawn from every whole record of frame `k`'s snapshot |

## Left out

- FreeImage is not modelled. That covers allocating the bitmap, setting pixels, saving the PNG and unloading it. The bitmap is an `array2<Rgb>`, and a saved file is the `Picture` value of its pixels.
- File I/O is not performed.
  - The data directory is a map from file names to bytes. `file_exists` is membership in that map.
  - The written pictures are returned by `Sequencer.RenderFrames` rather than written to disk.
- The memory layout of `particle` is not modelled (`src/particle.h` is not part of this model). Two things are parameters: the record size `sizeof(particle)`, and how a record of bytes becomes a particle (`decode`).
- `sqrt` is a parameter (`root`). Both the `sqrt(3)` of the isometric camera and the nonlinear pass use it.
- Floating point is not modelled.
  - `datatype` arithmetic is exact real arithmetic, with no rounding, overflow or NaN.
  - `(int)` casts of non-negative values are `Floor`.
- Color.Level: when adaptive brightness is on and the maximum is 0, the source divides by zero and casts NaN to `int`, which C++ leaves undefined. The model gives level 0 there.
- `operator>>` is not modelled.
  - How a numeric word becomes a number is the `Extractors` parameter.
  - The config file is its sequence of whitespace-separated words.
  - A missing word past the end reads as the empty word.
- The extra pass at the end of the file is not modelled. `var` (src/main.cpp:344) is only written by string reads, and a string read that fails at the end of the file leaves it unchanged. So after the last pass the loop body runs once more on the last word that was read as a string, while the model stops. The effects the model therefore does not show:
  - A file ending with a numeric setting (`img_w 800`) runs the `img_w` branch again. Its extraction fails and the value stays 800.
  - A file ending with `rotation_vector 1 2 3` runs that branch again and stores the uninitialised locals `x`, `y`, `z` (src/main.cpp:441-449).
  - A file ending with a flag whose value word names a flag (`verbose cuda`) runs the `cuda` branch. Its read fails, `var` still holds `cuda` rather than `true`, and `cuda` is turned off.
  - A file ending with a listed-word setting (`color heat`) or with `true`/`false` processes that last word again, which names no setting and changes nothing.
- Failed numeric extractions are not modelled (they leave the stream failed and end the loop).
- `exit(1)` paths are not modelled.
  - A missing settings file and a failed allocation or save are outside the model.
  - A failing `assert` on a listed-word setting is the `Rejected` error.
  - Images of zero width or height are excluded: `Image.WriteImage` and `Sequencer.RenderFrames` require `img_w, img_h >= 1`.
- Command-line handling (`argc`, choosing `settings.cfg` or `argv[1]`) is not modelled. `Sequencer.RenderFrames` takes the settings as read.
- Memory management (`new`/`delete` of particles and sets) is not modelled.
- The iteration order of the `unordered_set` particle set is not modelled. The set is a sequence in insertion order. `Image.PictureOrderFree` proves the picture is the same for every order.
- Config.LaterOverrides: covers two mentions in a row of a setting that takes one following word. `Config.KeyFinal` states the general case, any two mentions of any setting, for the setting's own value.
- Config.ProjectionKeyword, Config.ColorKeyword, Config.StrayWords: check a few words of the keyword chain rather than all of it. They cover the words the renderer itself reads and the stray `true`/`false`.
- The settings that only the simulator uses (generation, masses, velocities, collisions, `cuda`) are read and stored but play no further part.
