# Watermark-Overlay, modelled in Dafny

Watermark-Overlay is a desktop tool. It pastes one overlay image (a logo or
watermark) onto every image in a batch and saves each result as a PNG. This
project models two parts of it:

- **`add_overlay`** (`image_processor.py`), module `ImageProcessor`. It
  covers:
  - the size of the resized overlay: `int(base_width * scale)` wide, with the
    overlay's aspect ratio kept by a second `int()`;
  - the padding in pixels;
  - the anchor for each of the five position names, and the fallback for any
    other string;
  - the `(True, None)` / `(False, str(e))` result.

  Decoding the base image and the resize, composite and save calls are
  library code. They enter only as their possible failure: a decode
  `Result<Size>` and an optional library error message.
- **The application window** (`gui_app.py`), class `GuiApp.App`:
  - the list of queued base image paths. Adding paths skips those already
    listed before the call; a path given twice in one call is added twice;
  - clearing the list;
  - choosing the overlay;
  - `start_processing`, with its three guards and its loop over the queue.
    For each path the loop derives the output name, calls `add_overlay`,
    prints a line for each failure, and then reports the whole batch as
    saved.

  The output name uses `os.path.basename`, `os.path.splitext` and
  `os.path.join` under POSIX rules. These are modelled in module `OsPath`.

The file system and the image library are seen through an `Env`: what decoding
each path yields, and the error, if any, that the library raises for it.
Widgets become the state they show:

- the file labels become a `seq<string>`;
- the status label becomes a `Status`;
- standard output becomes a `seq<string>` of printed lines;
- message boxes become a `Report`.

Numbers:

- `scale` and `padding` are exact reals.
- Python's `int()` on a float truncates toward zero. It is modelled by
  `Trunc`.
- The centre offset `int((W - w) / 2)` is `HalfTowardZero`. It rounds toward
  zero, which for a negative odd difference is up.
- An overlay of width 0 makes `height / width` raise `ZeroDivisionError`. The
  model returns its message, "division by zero".

The sizes, the padding and the centre offset are truncated with `int()`, not
rounded. For example, a width of 0.25 × 1003 = 250.75 becomes 250, not 251.

## Model

| member | source | states |
|---|---|---|
| ImageProcessor.ParsePosition | image_processor.py:20-31 | the position string maps back to itself, and it falls to the final `else` exactly when it is none of the five names |
| ImageProcessor.ParsePositionName | image_processor.py:20-31 | each of the five named positions is recognised from its own name |
| ImageProcessor.HalfTowardZero | image_processor.py:29 | `int(d / 2)` is half of `d` rounded toward zero: `d` is `2h` or `2h+1` for `d >= 0`, and `2h` or `2h-1` for `d < 0` |
| ImageProcessor.Trunc | image_processor.py:13 | no ensures of its own; `TruncBounds` pins `int(x)` as floor for `x >= 0` and ceiling for `x < 0` |
| ImageProcessor.TruncBounds | image_processor.py:13 | `int(x)` lies within 1 of `x` on the side of zero |
| ImageProcessor.ResizedOverlay | image_processor.py:13-15 | resizing fails exactly when the overlay has width 0, with the ZeroDivisionError message |
| ImageProcessor.ResizedWidthIsFloor | image_processor.py:13 | for a non-negative scale the new width is `floor(base_width * scale)` and non-negative; for a scale of at most 1 it is at most the base width |
| ImageProcessor.AspectPreserved | image_processor.py:14-15 | the new height is the largest `h` with `h * ow <= new_width * oh`, so the aspect ratio is kept up to truncation |
| ImageProcessor.TruncOfRatio | image_processor.py:14-15 | `n = int(a * (c / b))` satisfies `n*b <= a*c < (n+1)*b` |
| ImageProcessor.PaddingPx | image_processor.py:19 | no ensures of its own; `PaddingIsFloor` gives `floor(W * padding)` and `PaddingIgnoresHeight` its independence of the height |
| ImageProcessor.PaddingIsFloor | image_processor.py:19 | padding in pixels is `floor(base_width * padding)`; for a fraction of at most 1 it lies in `0..base_width` |
| ImageProcessor.PaddingIgnoresHeight | image_processor.py:19 | two bases of equal width get the same padding, whatever their heights |
| ImageProcessor.Anchor | image_processor.py:20-31 | no ensures of its own; `CornerMargins`, `CenterMargins` and `CenterRoundsTowardZero` characterise each arm, `UnknownPositionIsBottomRight` the `else` |
| ImageProcessor.CornerMargins | image_processor.py:20-27 | each corner position leaves exactly `padding_px` between the overlay and its two edges |
| ImageProcessor.CornersFlushWithoutPadding | image_processor.py:19-27 | with zero padding each named corner puts the overlay flush against its two edges |
| ImageProcessor.UnknownPositionIsBottomRight | image_processor.py:20-31 | any string other than the five names gives the same placement as `bottom-right` |
| ImageProcessor.CenterMargins | image_processor.py:28-29 | `center` ignores padding; left and right margins differ by at most 1 px, as do top and bottom; the anchor goes negative once the overlay is 2 px larger than the base |
| ImageProcessor.CenterRoundsTowardZero | image_processor.py:29 | for every difference `d = W - w` (and `H - h`) the centre anchor is `d / 2` truncated toward zero, so a negative odd `d` rounds up |
| ImageProcessor.HalfIsTruncatedDivision | image_processor.py:29 | `int(d / 2)` equals `d / 2` for `d >= 0` and `-((-d) / 2)` for `d < 0` |
| ImageProcessor.ResizeCanReachZero | image_processor.py:13 | a base narrower than 20 px at scale 0.05 gives a resized width of 0; the geometry does not keep it positive |
| ImageProcessor.FloorOfFraction | image_processor.py:13 | `int(w * f)` for non-negative `w`, `f` is `floor(w * f)`, non-negative, and at most `w` when `f <= 1` |
| ImageProcessor.Place | image_processor.py:13-34 | geometry fails exactly on a zero-width overlay; otherwise the output canvas is the base image's size |
| ImageProcessor.OversizedCenterAccepted | image_processor.py:28-41 | when the base decodes and no library call raises, `center` succeeds for any overlay with a width, however large, and the output keeps the base size |
| ImageProcessor.WorkedExample | image_processor.py:13-21 | 1000x800 base, 400x200 overlay, scale 0.25, padding 0.02, bottom-right gives a 250x125 overlay, 20 px padding, anchor (730, 655) |
| ImageProcessor.AddOverlay | image_processor.py:8-43 | success exactly when the base decodes, the overlay has a width and no library call fails; otherwise the failure carries the decoder's message, "division by zero", or the library's message, in that order |
| OsPath.LastIndexOf | gui_app.py:150 | the index of the last occurrence of a character, or -1, with no occurrence after it |
| OsPath.BaseName | gui_app.py:150 | no ensures of its own; `BaseNameIsLastComponent` and `BaseNameAfterSlash` characterise `os.path.basename` |
| OsPath.BaseNameIsLastComponent | gui_app.py:150 | `basename` is a '/'-free suffix of the path that is the whole path or follows a '/' |
| OsPath.Stem | gui_app.py:150 | the stem from `splitext` is a prefix of the name |
| OsPath.Join | gui_app.py:152 | joining with an absolute name yields that name |
| OsPath.JoinRelative | gui_app.py:152 | joining a relative name keeps the directory and adds one '/' unless the directory ends with one |
| OsPath.OutputName | gui_app.py:150-151 | no ensures of its own; `OutputNameShape` and `ExtensionDiscarded` give its shape |
| OsPath.OutputPath | gui_app.py:150-152 | no ensures of its own; `OutputPathInDir` and `SameStemSameOutput` give where the file lands |
| OsPath.OutputNameShape | gui_app.py:150-151 | the output file name holds no '/' and is the stem of the base name followed by `_with_overlay.png` |
| OsPath.OutputPathInDir | gui_app.py:150-152 | every output path is the chosen folder, a '/' unless the folder ends with one, and the output file name |
| OsPath.BaseNameAfterSlash | gui_app.py:150 | a '/'-free name after a folder ending in '/' is its own base name |
| OsPath.StemDropsExtension | gui_app.py:150 | `splitext` cuts at the last dot when some earlier character is not a dot |
| OsPath.StemWithoutDot | gui_app.py:150 | a name without a dot is its own stem |
| OsPath.SameStemSameOutput | gui_app.py:150-152 | two base images with the same stem, whatever their folders and extensions, get the same output path |
| OsPath.ExtensionDiscarded | gui_app.py:150-151 | `dir/stem.ext` is always written as `stem_with_overlay.png`, whatever the extension |
| GuiApp.NewPaths | gui_app.py:93-98 | no ensures of its own; `NewPathsCount` and `NewPathsAllNew` state the snapshot filter |
| GuiApp.NewPathsCount | gui_app.py:91-98 | a path is appended as often as it is given when it was not listed before the call, and never when it was |
| GuiApp.NewPathsAllNew | gui_app.py:91-98 | when no given path was listed, all are appended in order, duplicates included |
| GuiApp.Process | gui_app.py:150-155 | one batch item keeps its path, gets its output path from the folder and base name, and succeeds exactly as `add_overlay` does for it |
| GuiApp.FailureLine | gui_app.py:158 | no ensures of its own; the line `Failed to process {path}: {error_msg}` for one failed item |
| GuiApp.FailureLines | gui_app.py:157-158 | no ensures of its own; `FailureLinesCount` gives one line per failure, and `RunBatch` ties it to the printed output |
| GuiApp.FailureLinesCount | gui_app.py:157-158 | one line is printed per failed item, so none when all succeed |
| GuiApp.RunBatch | gui_app.py:146-159 | the loop makes one `add_overlay` call per queued path, in order, and prints exactly the failure lines of those calls |
| GuiApp.App.constructor | gui_app.py:22-88 | a new window has no overlay, an empty list, status "Ready" and nothing printed |
| GuiApp.App.SelectOverlay | gui_app.py:100-108 | a cancelled dialog changes nothing; a file that opens becomes the overlay; one that does not leaves the old overlay and yields the error box text |
| GuiApp.App.AddFiles | gui_app.py:91-98 | the list becomes the old list followed by the given paths not in the old list, in order |
| GuiApp.App.ClearList | gui_app.py:120-126 | the list is emptied and the status reset to "Ready" |
| GuiApp.App.StartProcessing | gui_app.py:128-162 | reports `Finished` exactly when an overlay is set, the list is non-empty and a folder was chosen; with no overlay, an empty list or a cancelled folder dialog nothing changes; otherwise every queued path is processed once in order, failures are printed and skipped, and status and report announce all `len(list)` images, failed ones included |

## Left out

- Pixel work is not modelled: decoding, RGBA conversion, Lanczos resampling, pasting with the alpha mask, source-over compositing and PNG encoding. Their failures enter as the decode result and the `libraryError` message.
- IEEE 754 double rounding is not modelled. `base_width * scale`, `height / width`, `new_overlay_width * overlay_ratio`, `base_width * padding` and `(W - w) / 2` are exact reals, so a product that a double would round across an integer can truncate differently.
- ImageProcessor.AddOverlay: `libraryError` is one message per call. Which of resize, paste, composite or save raised it, and any partial output file, are not modelled.
- ImageProcessor.AddOverlay: library failure is not tied to the geometry. The image library rejects a resize to a side of 0, which happens for a narrow base at a small scale (`ResizeCanReachZero`) or for a very wide overlay. The model reports `Success` for such inputs unless `libraryError` says otherwise.
- GuiApp.App.StartProcessing: the per-item status text "Processing i/N: name" and the `update_idletasks` call are not modelled; the text is overwritten by "Done!" before the method returns.
- The progress bar is not modelled. `start_processing` leaves it full at N/N, and `clear_list` resets it to 0.
- GuiApp.App.StartProcessing: the `Env` is fixed for the whole batch, and there is no file-system state. So a file written earlier in the batch cannot change a later decode. Output-name collisions are computed (`SameStemSameOutput`: `a/x.png` and `b/x.jpg` both go to `x_with_overlay.png`), but the overwrite they cause is not modelled, and the status still counts both as saved.
- GuiApp.App.StartProcessing: the folder dialog and the two message boxes are not modelled as widgets. The dialog becomes the `outputDir` parameter ("" when cancelled) and the boxes become the `Report`.
- `select_files` and `handle_drop` only read a dialog or a drop event and pass a non-empty list to `_add_files_to_list`. The dialog and Tk's `splitlist` are not modelled.
- GuiApp.App.AddFiles: hiding `drop_label` is not modelled. Neither is its re-display in `clear_list`, nor widget creation, packing and destruction.
- GuiApp.App.SelectOverlay: the overlay label's text, `basename(filepath)`, is not modelled.
- The overlay is kept only as its size, because that is all `add_overlay` reads from it. Its truthiness test in `start_processing` becomes `overlay.Some?`.
- OsPath: only POSIX path rules ('/' separator) are modelled; Windows `ntpath` rules are left out.
- Settings (position, scale, padding) are parameters of StartProcessing. The sliders and the option menu, with their ranges 0.05-1.0 and 0.0-0.2, are not modelled.
- Theme, window layout, drag-and-drop registration and the Tk event loop are left out.
