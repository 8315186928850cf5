/** `quan_eval_html_generator.py`: read `keyword.txt` with the same line
    rule as the evaluation script, count the "O" and "X" labels, compute the
    "O" percentage over all image names, and emit one HTML table row per
    index-wise (image, caption, keyword, label) tuple whose image file
    exists. The HTML markup is not modelled; a row is its four cells. */
module QuanEvalHtml {
  import opened Wrappers
  import opened Seqs
  import opened KeywordFile
  import opened EvalErrors

  /** The three counts and the percentage the page and the console show. */
  datatype Stats = Stats(totalImages: nat, similarCount: nat, notSimilarCount: nat, similarPercent: real)

  /** `similar_count / total_images * 100`, which raises ZeroDivisionError
      when no line passed the " : " split. */
  function ComputeStats(p: Parsed): (r: Result<Stats, Error>)
    ensures r.Failure? <==> p.imageFiles == []
    ensures r.Failure? ==> r.error == DivisionByZero
    ensures r.Success? ==>
      && r.value.totalImages == |p.imageFiles|
      && r.value.similarCount == Count(p.labels, "O")
      && r.value.notSimilarCount == Count(p.labels, "X")
      && r.value.similarPercent == Percent(r.value.similarCount, r.value.totalImages)
  {
    var total := |p.imageFiles|;
    if total == 0 then
      Failure(DivisionByZero)
    else
      var similar := Count(p.labels, "O");
      Success(Stats(total, similar, Count(p.labels, "X"), Percent(similar, total)))
  }

  /** `part / base * 100` in Python's true division, with exact reals. */
  function Percent(part: nat, base: nat): (r: real)
    requires base > 0
    ensures r * base as real == part as real * 100.0
  {
    PercentScalesBack(part as real, base as real);
    part as real / base as real * 100.0
  }

  /** A percentage times its base gives back a hundred times the part. */
  lemma PercentScalesBack(part: real, base: real)
    requires base > 0.0
    ensures part / base * 100.0 * base == part * 100.0
  {
    assert part / base * base == part;
  }

  /** The "X" percentage as printed: the complement of the "O" percentage,
      not a ratio computed from `not_similar_count`. */
  function ShownNotSimilarPercent(s: Stats): real {
    100.0 - s.similarPercent
  }

  /** The printed "X" percentage equals `not_similar_count / total * 100`
      exactly when every image name counted carries label "O" or "X". */
  lemma ShownNotSimilarPercentIff(p: Parsed)
    requires ComputeStats(p).Success?
    ensures var s := ComputeStats(p).value;
      ShownNotSimilarPercent(s) == s.notSimilarCount as real / s.totalImages as real * 100.0
      <==> s.similarCount + s.notSimilarCount == s.totalImages
  {
    var s := ComputeStats(p).value;
    ComplementIff(s.similarCount as real, s.notSimilarCount as real, s.totalImages as real);
  }

  lemma ComplementIff(o: real, x: real, t: real)
    requires t > 0.0
    ensures 100.0 - o / t * 100.0 == x / t * 100.0 <==> o + x == t
  {
    var shown := 100.0 - o / t * 100.0;
    var ratio := x / t * 100.0;
    PercentScalesBack(o, t);
    PercentScalesBack(x, t);
    assert shown * t == 100.0 * t - o * 100.0;
    assert ratio * t == x * 100.0;
    ScaleCancels(shown, ratio, t);
  }

  /** Multiplying by a positive number is injective. */
  lemma ScaleCancels(a: real, b: real, t: real)
    requires t > 0.0
    ensures a == b <==> a * t == b * t
  {
    if a * t == b * t {
      assert (a - b) * t == 0.0;
    }
  }

  /** Label counts are bounded by the label list, which is bounded by the
      image names; the image names exceed the labels by the name-only lines. */
  lemma CountsBounded(lines: seq<string>)
    ensures var p := Parse(lines);
      && Count(p.labels, "O") + Count(p.labels, "X") <= |p.labels| <= |p.imageFiles|
      && |p.imageFiles| == |p.labels| + NameOnlyCount(lines)
  {
    var p := Parse(lines);
    CountTwoValues(p.labels, "O", "X");
    ParseLengths(lines);
  }

  /** When there are no more labels than image names, as the reader
      guarantees, the "O" percentage lies in [0, 100]. */
  lemma PercentWithin(p: Parsed)
    requires |p.labels| <= |p.imageFiles|
    requires ComputeStats(p).Success?
    ensures 0.0 <= ComputeStats(p).value.similarPercent <= 100.0
  {
    var s := ComputeStats(p).value;
    var t := s.totalImages as real;
    assert s.similarCount as real <= t;
    QuotientPercent(s.similarCount as real, t);
  }

  lemma QuotientPercent(part: real, base: real)
    requires 0.0 <= part <= base && base > 0.0
    ensures 0.0 <= part / base * 100.0 <= 100.0
  {
    assert part / base * base == part;
  }

  /** One HTML table row: the image, caption, keyword and label cells. */
  datatype Row = Row(imageFile: string, caption: string, keyword: string, similarity: string)

  function Min(a: nat, b: nat): nat { if a <= b then a else b }

  /** Python's `zip` of the four lists: it stops at the shortest. */
  function Zip4(p: Parsed): (rows: seq<Row>)
    ensures |rows| == Min(Min(|p.imageFiles|, |p.captions|), Min(|p.keywords|, |p.labels|))
    ensures forall i :: 0 <= i < |rows| ==>
      rows[i] == Row(p.imageFiles[i], p.captions[i], p.keywords[i], p.labels[i])
  {
    var n := Min(Min(|p.imageFiles|, |p.captions|), Min(|p.keywords|, |p.labels|));
    seq(n, i requires 0 <= i < n => Row(p.imageFiles[i], p.captions[i], p.keywords[i], p.labels[i]))
  }

  /** The test the row loop applies: does the row's image file exist? */
  function ImageExists(present: string -> bool): Row -> bool {
    (row: Row) => present(row.imageFile)
  }

  /** The table body: the zipped rows whose `img_dir / img_file` exists, in
      order. */
  function TableRows(p: Parsed, present: string -> bool): (rows: seq<Row>)
    ensures forall k :: 0 <= k < |rows| ==> rows[k] in Zip4(p) && present(rows[k].imageFile)
    ensures forall i :: 0 <= i < |Zip4(p)| && present(Zip4(p)[i].imageFile) ==> Zip4(p)[i] in rows
  {
    Filter(ImageExists(present), Zip4(p))
  }

  /** The row loop as the script writes it, appending a row per zipped tuple
      whose image file exists. */
  method EmitRows(p: Parsed, present: string -> bool) returns (rows: seq<Row>)
    ensures rows == TableRows(p, present)
  {
    var zipped := Zip4(p);
    rows := [];
    var i := 0;
    while i < |zipped|
      invariant 0 <= i <= |zipped|
      invariant rows == Filter(ImageExists(present), zipped[..i])
    {
      FilterSnoc(ImageExists(present), zipped, i);
      var row := zipped[i];
      if present(row.imageFile) {
        rows := rows + [row];
      }
      i := i + 1;
    }
    assert zipped[..i] == zipped;
  }

  /** No more rows than image names or captions, and every row pairs the
      lists at one index. */
  lemma RowsBounded(lines: seq<string>, present: string -> bool)
    ensures var p := Parse(lines);
      && |TableRows(p, present)| <= Min(|p.imageFiles|, |p.captions|)
      && forall k :: 0 <= k < |TableRows(p, present)| ==>
           exists i :: 0 <= i < Min(|p.imageFiles|, |p.captions|) &&
             TableRows(p, present)[k] == Row(p.imageFiles[i], p.captions[i], p.keywords[i], p.labels[i])
  {
    var p := Parse(lines);
    var z := Zip4(p);
    ParseLengths(lines);
    forall k | 0 <= k < |TableRows(p, present)|
      ensures exists i :: 0 <= i < Min(|p.imageFiles|, |p.captions|) &&
                TableRows(p, present)[k] == Row(p.imageFiles[i], p.captions[i], p.keywords[i], p.labels[i])
    {
      var r := TableRows(p, present)[k];
      assert r in z;
      var i :| 0 <= i < |z| && z[i] == r;
      assert r == Row(p.imageFiles[i], p.captions[i], p.keywords[i], p.labels[i]);
    }
  }

  /** When every image is present, the table has one row per caption. */
  lemma AllImagesShown(lines: seq<string>, present: string -> bool)
    requires forall i :: 0 <= i < |Parse(lines).imageFiles| ==> present(Parse(lines).imageFiles[i])
    ensures TableRows(Parse(lines), present) == Zip4(Parse(lines))
    ensures |TableRows(Parse(lines), present)| == |Parse(lines).captions|
  {
    var p := Parse(lines);
    ParseLengths(lines);
    FilterAll(ImageExists(present), Zip4(p));
  }

  /** What the script produces. */
  datatype Report = Report(stats: Stats, rows: seq<Row>)

  /** The whole script: the missing-file check comes before any parsing, and
      the percentage is computed before any row is emitted. */
  function QuanEval(file: Option<seq<string>>, present: string -> bool): (r: Result<Report, Error>)
    ensures file.None? ==> r == Failure(FileNotFound)
    ensures file.Some? ==> (r.Failure? <==> Parse(file.value).imageFiles == [])
    ensures r.Success? ==> r.value.stats.totalImages == |Parse(file.value).imageFiles|
  {
    if file.None? then
      Failure(FileNotFound)
    else
      var p := Parse(file.value);
      var stats :- ComputeStats(p);
      Success(Report(stats, TableRows(p, present)))
  }

  /** With the file read and parsed to `p`, the script's result. */
  lemma QuanEvalOfParsed(lines: seq<string>, p: Parsed, present: string -> bool)
    requires Parse(lines) == p && p.imageFiles != []
    ensures QuanEval(Some(lines), present) == Success(Report(ComputeStats(p).value, TableRows(p, present)))
  {
  }

  /** A line without fields followed by a complete line: the table pairs the
      first image with the second line's caption, and the printed "X"
      percentage is 50 although no line is labelled "X". */
  lemma MisalignedTableExample(present: string -> bool)
    requires present("x.jpg") && present("y.jpg")
    ensures var r := QuanEval(Some(["x.jpg : no fields", "y.jpg : a dog / dog / O"]), present);
      && r.Success?
      && r.value.rows == [Row("x.jpg", "a dog", "dog", "O")]
      && r.value.stats == Stats(2, 1, 0, 50.0)
      && ShownNotSimilarPercent(r.value.stats) == 50.0
  {
    var p := Parsed(["x.jpg", "y.jpg"], ["a dog"], ["dog"], ["O"]);
    MisalignmentExample();
    QuanEvalOfParsed(["x.jpg : no fields", "y.jpg : a dog / dog / O"], p, present);
    MisalignedParsedTable(p, present);
  }

  lemma MisalignedParsedTable(p: Parsed, present: string -> bool)
    requires p == Parsed(["x.jpg", "y.jpg"], ["a dog"], ["dog"], ["O"])
    requires present("x.jpg")
    ensures TableRows(p, present) == [Row("x.jpg", "a dog", "dog", "O")]
    ensures ComputeStats(p) == Success(Stats(2, 1, 0, 50.0))
  {
    assert Zip4(p) == [Row("x.jpg", "a dog", "dog", "O")];
    ShownOne(Row("x.jpg", "a dog", "dog", "O"), present);
    MisalignedStats(p);
  }

  /** A single row whose image exists is shown. */
  lemma ShownOne(row: Row, present: string -> bool)
    requires present(row.imageFile)
    ensures Filter(ImageExists(present), [row]) == [row]
  {
    assert [row][..0] == [];
  }

  lemma MisalignedStats(p: Parsed)
    requires p == Parsed(["x.jpg", "y.jpg"], ["a dog"], ["dog"], ["O"])
    ensures ComputeStats(p) == Success(Stats(2, 1, 0, 50.0))
  {
    assert Count(p.labels, "O") == 1;
    assert Count(p.labels, "X") == 0;
    assert Percent(1, 2) * 2.0 == 100.0;
  }

  /** With the corrected reader the same file gives the row of its second
      line, with its own image. */
  lemma AlignedTableExample(present: string -> bool)
    requires present("y.jpg")
    ensures TableRows(ParseAligned(["x.jpg : no fields", "y.jpg : a dog / dog / O"]), present)
         == [Row("y.jpg", "a dog", "dog", "O")]
  {
    MisalignmentExample();
    AlignedParsedTable(Parsed(["y.jpg"], ["a dog"], ["dog"], ["O"]), present);
  }

  lemma AlignedParsedTable(p: Parsed, present: string -> bool)
    requires p == Parsed(["y.jpg"], ["a dog"], ["dog"], ["O"])
    requires present("y.jpg")
    ensures TableRows(p, present) == [Row("y.jpg", "a dog", "dog", "O")]
  {
    assert Zip4(p) == [Row("y.jpg", "a dog", "dog", "O")];
    ShownOne(Row("y.jpg", "a dog", "dog", "O"), present);
  }
}
