/** Serialisation of bitmaps into rows of the export file, and the exporter that
    opens that file lazily on the first row and closes it on demand. */
module BitmapCsvExport {
  import opened Grids
  import opened ImageProcessing

  /** One row of the export file: its fields, before any CSV quoting. */
  type Row = seq<string>

  /** Field written for one cell: a cell lighter than the mean (true) is "0", any other cell is "1". */
  function Token(b: bool): string {
    if b then "0" else "1"
  }

  /** Cell-by-cell conversion of booleans to the two text tokens. */
  function ConvertBooleanList(bs: seq<bool>): (r: seq<string>)
    ensures |r| == |bs|
    ensures forall k :: 0 <= k < |bs| ==> (r[k] == "0" <==> bs[k]) && (r[k] == "1" <==> !bs[k])
  {
    if bs == [] then [] else [Token(bs[0])] + ConvertBooleanList(bs[1..])
  }

  /** Reading the tokens back: "0" is true, "1" is false, any other field is rejected. */
  function ParseBooleanList(fields: seq<string>): (r: Option<seq<bool>>)
    ensures r.Some? ==> |r.value| == |fields|
  {
    if fields == [] then Some([])
    else if fields[0] != "0" && fields[0] != "1" then None
    else match ParseBooleanList(fields[1..])
      case None => None
      case Some(rest) => Some([fields[0] == "0"] + rest)
  }

  /** The tokens written for a list of booleans read back as that list. */
  lemma {:induction false} ParseConvert(bs: seq<bool>)
    ensures ParseBooleanList(ConvertBooleanList(bs)) == Some(bs)
  {
    if bs != [] {
      ParseConvert(bs[1..]);
      var fields := ConvertBooleanList(bs);
      assert fields == [Token(bs[0])] + ConvertBooleanList(bs[1..]);
      assert fields[1..] == ConvertBooleanList(bs[1..]);
      assert (fields[0] == "0") == bs[0];
      assert bs == [bs[0]] + bs[1..];
    }
  }

  /** Fields that read back as a list of booleans are exactly the tokens written for it. */
  lemma {:induction false} ConvertParse(fields: seq<string>)
    requires ParseBooleanList(fields).Some?
    ensures ConvertBooleanList(ParseBooleanList(fields).value) == fields
  {
    if fields != [] {
      ConvertParse(fields[1..]);
    }
  }

  /** The row for one bitmap: its name, then one token per cell in row-major order. */
  function BitmapRow(bitmapName: string, bitmap: seq<seq<bool>>): (row: Row)
    ensures |row| == 1 + CellCount(bitmap) && row[0] == bitmapName
    ensures forall k :: 1 <= k < |row| ==> row[k] == "0" || row[k] == "1"
    ensures ParseBooleanList(row[1..]) == Some(Flatten(bitmap))
  {
    var row := [bitmapName] + ConvertBooleanList(Flatten(bitmap));
    ParseConvert(Flatten(bitmap));
    assert row[1..] == ConvertBooleanList(Flatten(bitmap));
    row
  }

  /** Field 1 + k of a bitmap's row is the token of the k-th cell in row-major order. */
  lemma BitmapRowAt(bitmapName: string, bitmap: seq<seq<bool>>, k: nat)
    requires k < CellCount(bitmap)
    ensures BitmapRow(bitmapName, bitmap)[1 + k] == Token(Flatten(bitmap)[k])
  {
    assert BitmapRow(bitmapName, bitmap) == [bitmapName] + ConvertBooleanList(Flatten(bitmap));
  }

  /** In an n x n bitmap, cell (i, j) is written at field 1 + i * n + j of a row of 1 + n * n fields. */
  lemma BitmapRowCell(bitmapName: string, bitmap: seq<seq<bool>>, n: nat, i: nat, j: nat)
    requires |bitmap| == n && IsRectangular(bitmap, n)
    requires i < n && j < n
    ensures |BitmapRow(bitmapName, bitmap)| == 1 + n * n
    ensures 1 + i * n + j < 1 + n * n && BitmapRow(bitmapName, bitmap)[1 + i * n + j] == Token(bitmap[i][j])
  {
    FlattenRowMajor(bitmap, n, i, j);
    BitmapRowAt(bitmapName, bitmap, i * n + j);
  }

  /** Polarity of the whole chain: the dark top row of [[0, 0], [255, 255]] is written as "1", the light bottom row as "0". */
  lemma PolarityExample()
    ensures BitmapRow("x.png", Threshold([[0.0, 0.0], [255.0, 255.0]])) == ["x.png", "1", "1", "0", "0"]
  {
    var g := [[0.0, 0.0], [255.0, 255.0]];
    assert Flatten(g) == [0.0, 0.0, 255.0, 255.0] by {
      assert Flatten(g[1..]) == [255.0, 255.0] + Flatten(g[2..]);
    }
    assert Sum([255.0, 255.0]) == 255.0 + Sum([255.0]);
    assert Sum([0.0, 255.0, 255.0]) == 510.0;
    assert Sum(Flatten(g)) == 510.0;
    assert Mean(g) == 127.5;
    var t := Threshold(g);
    assert t[0] == [false, false] && t[1] == [true, true];
    assert t == [[false, false], [true, true]];
    assert Flatten(t) == [false, false, true, true];
  }

  /** A resampled image that is transparent everywhere grays to a uniform 255 and is written as all "1". */
  lemma TransparentImageRow(bitmapName: string, resized: Image)
    requires AllRgba(resized)
    requires forall i, j :: 0 <= i < |resized| && 0 <= j < |resized[i]| ==> resized[i][j][3] == 0.0
    ensures forall k :: 1 <= k < |BitmapRow(bitmapName, Threshold(Grayscale(resized)))| ==>
      BitmapRow(bitmapName, Threshold(Grayscale(resized)))[k] == "1"
  {
    var gray := Grayscale(resized);
    var bitmap := Threshold(gray);
    ThresholdUniform(gray, TransparentGray);
    var row := BitmapRow(bitmapName, bitmap);
    assert row[1..] == ConvertBooleanList(Flatten(bitmap));
    forall k | 1 <= k < |row| ensures row[k] == "1" {
      assert Flatten(bitmap)[k - 1] in Flatten(bitmap);
      FlattenMember(bitmap, Flatten(bitmap)[k - 1]);
      assert !Flatten(bitmap)[k - 1];
      assert row[k] == ConvertBooleanList(Flatten(bitmap))[k - 1];
    }
  }

  /** A processed n x n bitmap becomes a row of 1 + n * n fields: 101 for the default resolution of 10. */
  lemma ProcessedRowShape(p: ImageProcessor, decoded: Image, resize: (Image, nat) -> Image, bitmapName: string)
    requires IsPixelArray(decoded)
    requires IsResampling(resize(decoded, p.targetRes), decoded, p.targetRes)
    requires p.Process(decoded, resize).Ok?
    ensures |BitmapRow(bitmapName, p.Process(decoded, resize).value)| == 1 + p.targetRes * p.targetRes
    ensures p == NewImageProcessor() ==> |BitmapRow(bitmapName, p.Process(decoded, resize).value)| == 101
  {
    FlattenLength(p.Process(decoded, resize).value, p.targetRes);
  }

  /** The exporter. `fileOpen` says whether the file handle is set; `fileRows` is what the export file holds. */
  class BitmapCsvExporter {
    const fileName: string
    var fileOpen: bool
    var fileRows: seq<Row>

    /** A new exporter holds no handle; the file keeps whatever it held before (`onDisk`). */
    constructor (fileName: string, onDisk: seq<Row>)
      ensures this.fileName == fileName && !fileOpen && fileRows == onDisk
    {
      this.fileName := fileName;
      fileOpen := false;
      fileRows := onDisk;
    }

    /** Opening for writing truncates the file. */
    method OpenCsv()
      modifies this
      ensures fileOpen && fileRows == []
    {
      fileOpen := true;
      fileRows := [];
    }

    /** Closing drops the handle whether or not `close` raised, and keeps the rows written; without a handle it does nothing. */
    method CloseCsv()
      modifies this
      ensures !fileOpen && fileRows == old(fileRows)
    {
      // Whether or not close() fails, the rows already written stay in the file and the handle is dropped.
      fileOpen := false;
    }

    /** Appends the row for `bitmap`, opening (and so truncating) the file first when no handle is set. */
    method AppendBitmap(bitmap: seq<seq<bool>>, bitmapName: string)
      modifies this
      ensures fileOpen
      ensures fileRows == (if old(fileOpen) then old(fileRows) else []) + [BitmapRow(bitmapName, bitmap)]
    {
      if !fileOpen {
        OpenCsv();
      }
      fileRows := fileRows + [BitmapRow(bitmapName, bitmap)];
    }
  }

  /** Rows accumulate in call order while the handle is set; closing twice is harmless; appending after a close starts the file over. */
  method ExporterLifecycle(a: seq<seq<bool>>, b: seq<seq<bool>>, onDisk: seq<Row>)
  {
    var e := new BitmapCsvExporter("export.csv", onDisk);
    e.AppendBitmap(a, "a.png");
    e.AppendBitmap(b, "b.png");
    assert e.fileRows == [BitmapRow("a.png", a), BitmapRow("b.png", b)];
    e.CloseCsv();
    e.CloseCsv();
    assert !e.fileOpen && e.fileRows == [BitmapRow("a.png", a), BitmapRow("b.png", b)];
    e.AppendBitmap(b, "c.png");
    assert e.fileRows == [BitmapRow("c.png", b)];
  }
}
