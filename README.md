# Image-to-bitmap reduction, modelled in Dafny

This project models the core of a small Python tool. The tool turns PNG images into monochrome bitmaps and writes each one as a labelled row of a CSV file. The model covers three parts:

- **Pixel stages** (`image_processor.dfy`, module `ImageProcessing`). Alpha-aware grayscale reduction comes first: a fully transparent pixel becomes 255, and any other pixel becomes the unweighted mean of R, G and B. Binarisation follows, against one global threshold, the mean of all cells: a cell is `true` iff it is strictly greater than the mean. `ImageProcessor.Process` composes resize, grayscale and threshold in that order.
- **Serialisation and the exporter** (`bitmap_csv_exporter.dfy`, module `BitmapCsvExport`). Each cell becomes a token: `true` → `"0"`, `false` → `"1"`. The row is the bitmap's name followed by the tokens in row-major order. `BitmapCsvExporter` is a class with two fields. `fileOpen` says whether the file handle is set. `fileRows` holds what the export file contains. The file is opened (and so truncated) on the first append, and closing drops the handle.
- **Image intake** (`png_image_intake.dfy`, module `PngIntake`). A file name is accepted when `.png` ends it, in any letter case. The generator filters the file list of the walk's next directory and keeps the listing order. `PngImageIntake` is a class whose `walker` field holds the walk entries not yet produced.

`grids.dfy` (module `Grids`) holds the shared data model: row-major flattening (`itertools.chain`), sums and means of real samples, and `Option`/`Result`.

Samples are `real`. The resampler is a foreign library routine, so `Process` takes it as a parameter. Its only requirement is the resampler's shape contract for that call: the output is `targetRes × targetRes` and keeps the channel count of the input. Directory walks are input sequences of `WalkEntry` values. The export file is a sequence of rows, where each row is a sequence of fields.

Polarity follows the code. In the bitmap, `true` means "lighter than the mean" (utils/ImageProcessor.py:58). The exporter writes `true` as `"0"` (utils/BitmapCSVExporter.py:39), and its docstring calls `"1"` the character, or foreground, marker. So a cell at or below the mean is written as `"1"`. Because the comparison is `>`, a uniform grid is all `false` and is written as all `"1"`. A description that calls `true` the foreground cell inverts the booleans but leaves the text unchanged. The model follows the code's booleans.

## Model

| member | source | states |
|---|---|---|
| `ImageProcessing.GrayValue` | utils/ImageProcessor.py:46 | alpha 0 gives 255 whatever R, G, B are; any other alpha gives a value between the minimum and maximum of R, G, B, and three times that value is R+G+B |
| `ImageProcessing.GrayValueDependsOnlyOnRgbAndTransparency` | utils/ImageProcessor.py:46 | two pixels that agree on R, G, B and on whether alpha is zero get the same grey value: channels from index 4 on and the size of a nonzero alpha never enter it |
| `ImageProcessing.Grayscale` | utils/ImageProcessor.py:45-48 | output has the input's shape row by row; each cell is the grey value of the pixel at the same place |
| `ImageProcessing.Threshold` | utils/ImageProcessor.py:58 | output has the input's shape; a cell is true iff its value is strictly greater than the mean of all cells |
| `ImageProcessing.ThresholdUniform` | utils/ImageProcessor.py:58 | a grid whose cells are all equal thresholds to all false |
| `ImageProcessing.ThresholdSomeFalse` | utils/ImageProcessor.py:58 | a grid with at least one cell has a false cell |
| `ImageProcessing.ThresholdSomeTrue` | utils/ImageProcessor.py:58 | a grid holding two different values has a true cell |
| `ImageProcessing.ThresholdMonotone` | utils/ImageProcessor.py:58 | a cell at least as bright as a true cell is true |
| `Grids.MeanNotBelowAll` | utils/ImageProcessor.py:58 | some sample of a non-empty sequence lies at or below its mean |
| `Grids.MeanNotAboveAll` | utils/ImageProcessor.py:58 | a sequence holding two different samples has a sample strictly above its mean |
| `Grids.MeanOfConstant` | utils/ImageProcessor.py:58 | the mean of equal samples is their common value |
| `ImageProcessing.ImageProcessor.Process` | utils/ImageProcessor.py:66-81 | succeeds iff the target resolution is 0 or the image has at least 4 channels; then the result is targetRes × targetRes and is threshold of grayscale of the resized image, in that order |
| `ImageProcessing.DefaultResolution` | utils/ImageProcessor.py:16-23 | a processor built without a resolution uses 10 |
| `Grids.FlattenMember` | utils/BitmapCSVExporter.py:70 | a value occurs in the flattened grid iff it is one of the grid's cells |
| `Grids.FlattenRowMajor` | utils/BitmapCSVExporter.py:70 | in a grid of width w, cell (i, j) is at position i·w + j of the flattened sequence |
| `BitmapCsvExport.ConvertBooleanList` | utils/BitmapCSVExporter.py:39 | same length; a field is "0" iff its boolean is true and "1" iff it is false |
| `BitmapCsvExport.ParseConvert` | utils/BitmapCSVExporter.py:39 | reading the written tokens back gives the original booleans |
| `BitmapCsvExport.ConvertParse` | utils/BitmapCSVExporter.py:39 | fields that read back as booleans are exactly the tokens written for them, so only "0" and "1" occur |
| `BitmapCsvExport.BitmapRow` | utils/BitmapCSVExporter.py:70 | the row has 1 + cell-count fields; field 0 is the name; every other field is "0" or "1" and together they read back as the row-major cells |
| `BitmapCsvExport.BitmapRowCell` | utils/BitmapCSVExporter.py:70 | for an n × n bitmap the row has 1 + n² fields, and cell (i, j) is the token at field 1 + i·n + j |
| `BitmapCsvExport.PolarityExample` | utils/BitmapCSVExporter.py:39-70 | the grid [[0, 0], [255, 255]] named "x.png" thresholds and serialises to ["x.png", "1", "1", "0", "0"] |
| `BitmapCsvExport.TransparentImageRow` | utils/ImageProcessor.py:46-58 | a resampled image that is transparent everywhere is written with every data field "1" |
| `BitmapCsvExport.ProcessedRowShape` | utils/BitmapCSVExporter.py:70 | a processed bitmap gives a row of 1 + targetRes² fields, which is 101 at the default resolution |
| `BitmapCsvExport.BitmapCsvExporter.constructor` | utils/BitmapCSVExporter.py:17-22 | a new exporter has no handle and leaves the file's existing rows alone |
| `BitmapCsvExport.BitmapCsvExporter.OpenCsv` | utils/BitmapCSVExporter.py:41-46 | opening sets the handle and truncates the file to no rows |
| `BitmapCsvExport.BitmapCsvExporter.CloseCsv` | utils/BitmapCSVExporter.py:48-58 | afterwards there is no handle and the rows are unchanged, whether or not a handle was set, so closing is idempotent |
| `BitmapCsvExport.BitmapCsvExporter.AppendBitmap` | utils/BitmapCSVExporter.py:60-70 | afterwards the handle is set; the file holds the earlier rows (when the handle was already set) or nothing (when the append had to open it), followed by the bitmap's row |
| `PngIntake.IsPngNameIsPatternFound` | utils/PNGImageIntake.py:13-34 | the name test holds iff the search for `\.png$`, ignoring case, finds a match, with `$` at the end or before a final newline |
| `PngIntake.PngNamesAccepted` | utils/PNGImageIntake.py:34 | "a.png", "a.PNG", "a.Png" and "a.png\n" pass the name test |
| `PngIntake.PngNamesRejected` | utils/PNGImageIntake.py:34 | "a.png.bak", "png", "apng" and "a.png\n\n" fail the name test |
| `PngIntake.PngFilesAppend` | utils/PNGImageIntake.py:33-36 | filtering a concatenated listing is the concatenation of the filtered parts, so the listing order is kept |
| `PngIntake.PngFilesMember` | utils/PNGImageIntake.py:33-36 | a name is yielded iff it is listed and passes the name test |
| `PngIntake.PngFilesCount` | utils/PNGImageIntake.py:33-36 | a passing name is yielded exactly as often as it is listed, and a failing one never |
| `PngIntake.SelectPngFiles` | utils/PNGImageIntake.py:33-36 | the loop yields exactly the filtered listing |
| `PngIntake.PngImageIntake.constructor` | utils/PNGImageIntake.py:18-23 | the intake starts with the whole walk of the source directory |
| `PngIntake.PngImageIntake.FileGenerator` | utils/PNGImageIntake.py:31-36 | a generator consumes exactly one walk entry and yields the passing files of that entry only, in order; on an exhausted walk it fails and the walk stays empty |

The methods `BitmapCsvExport.ExporterLifecycle` and `PngIntake.SharedWalker` are clients of the two classes. The first shows that rows accumulate in call order, that a second close is harmless, and that an append after a close starts the file over. The second shows that two generators of one intake list two successive directories of the walk.

## Left out

- The resampler (`skimage.transform.resize` with `mode='reflect'`, utils/ImageProcessor.py:66) is a foreign floating-point routine. Its anti-aliasing, interpolation and output scaling are not modelled. Only its shape contract is, as a requirement on the function passed to `Process`.
- Decoding with `io.imread` (utils/ImageProcessor.py:32) is foreign I/O. `Process` receives the decoded image. The image is modelled with a channel axis. A decode without one (a 2-D grey image) fails in the source on `pixel[3]` just as a 3-channel image does, and is not modelled separately.
- Floating-point rounding of `sum(pixel[:3])/3` and of the mean is not modelled: samples are exact `real`s. The mixed scale is kept as written: resampled samples lie in [0, 1], yet a transparent pixel becomes 255.
- ImageProcessing.Grayscale: requires every pixel to have at least 4 channels, because `pixel[3]` raises otherwise. `Process` turns that case into `Err(ShapeMismatch)`.
- A negative `target_res` is not modelled: the resolution is a `nat`.
- CSV rendering by the `csv` module is not modelled: quoting of labels that contain `,`, `"` or line breaks, and the `\r\n` terminator. Rows are sequences of fields.
- Real file handles and `IOError` are not modelled. A failure of `open` is not modelled. A failing `close()` is swallowed by the source. The model assumes every written row has reached the file, so it does not capture rows lost in an unflushed buffer.
- Finalisation through `__del__` (utils/BitmapCSVExporter.py:24-28) is not modelled, because its timing belongs to the Python runtime.
- The file name of the exporter is stored but never used by the model, because no real file is opened.
- `os.walk`, `join`, `abspath` and `open(..., 'rb')` (utils/PNGImageIntake.py:23, 35) are not modelled. The walk is an input sequence, and the generator yields file names rather than opened files.
- PngIntake.PngImageIntake.FileGenerator: runs the generator to its end in one call. Python's laziness is not captured: a generator that is created but never advanced does not consume a walk entry in the source.
- PngIntake.PngImageIntake.FileGenerator: on an exhausted walk, `next` raises `StopIteration` inside the generator. Python 3.7 and later turn that into `RuntimeError`, which the model shows as `Err(WalkExhausted)`. Older versions end the generator with no files.
- Case folding covers ASCII letters only. No other character folds to `p`, `n` or `g` under Python's rules.
- BitmapCollector.py (the batch loop, the matplotlib plot and the script lines at the end) is not part of this model.
