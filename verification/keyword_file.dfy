/** The `keyword.txt` reader shared by both evaluation scripts: every line
    has the shape `IMAGE : CAPTION / KEYWORD / LABEL`, and the reader turns
    the file into four lists (image names, captions, keywords, O/X labels).

    As written, the image name is kept as soon as the line splits into two
    parts on " : ", before the three-way split on " / " is checked, so a line
    that passes the first split and fails the second adds an image name and
    nothing else. `Parse` models that; `ParseAligned` is the evidently
    intended reader that keeps the four lists in step. */
module KeywordFile {
  import opened Wrappers
  import opened PyStrings
  import opened Seqs

  const ColonSep: string := " : "
  const SlashSep: string := " / "

  /** What one line of the file contributes. */
  datatype LineKind =
    | Rejected                 // the " : " split did not give two parts
    | NameOnly(image: string)  // two parts, but not three " / " sub-parts
    | Entry(image: string, caption: string, keyword: string, mark: string)

  /** The line as the file's writer lays it out. */
  function FormatLine(image: string, caption: string, keyword: string, mark: string): string {
    image + ColonSep + caption + SlashSep + keyword + SlashSep + mark
  }

  /** The line is the image name, " : ", and the three " / "-joined fields. */
  lemma FormatLineNested(image: string, caption: string, keyword: string, mark: string)
    ensures FormatLine(image, caption, keyword, mark)
         == image + ColonSep + (caption + SlashSep + keyword + SlashSep + mark)
  {
    var h := image + ColonSep;
    assert h + (caption + SlashSep + keyword + SlashSep + mark)
        == h + (caption + SlashSep + keyword + SlashSep) + mark;
    assert h + (caption + SlashSep + keyword + SlashSep)
        == h + (caption + SlashSep + keyword) + SlashSep;
    assert h + (caption + SlashSep + keyword) == h + (caption + SlashSep) + keyword;
    assert h + (caption + SlashSep) == h + caption + SlashSep;
  }

  /** One iteration of the reading loop: strip the line, split on " : ",
      and, when that gives two parts, split the second on " / ". */
  function ClassifyLine(line: string): (k: LineKind)
    ensures !Contains(Strip(line), ColonSep) ==> k.Rejected?
    ensures !k.Rejected? ==> !Contains(k.image, ColonSep) && CleanBefore(k.image, ColonSep)
    ensures !k.Rejected? ==>
      |k.image| + |ColonSep| <= |Strip(line)| && Strip(line)[..|k.image| + |ColonSep|] == k.image + ColonSep
    ensures k.Entry? ==> Strip(line) == FormatLine(k.image, k.caption, k.keyword, k.mark)
    ensures k.Entry? ==> CleanBefore(k.caption, SlashSep) && CleanBefore(k.keyword, SlashSep)
    ensures k.Entry? ==>
      !Contains(k.caption, SlashSep) && !Contains(k.keyword, SlashSep) && !Contains(k.mark, SlashSep)
  {
    var parts := Split(Strip(line), ColonSep);
    if |parts| != 2 then
      Rejected
    else
      JoinTwo(parts, ColonSep);
      SplitCleanParts(Strip(line), ColonSep);
      assert Strip(line)[..|parts[0]| + |ColonSep|] == parts[0] + ColonSep;
      var fields := Split(parts[1], SlashSep);
      if |fields| != 3 then
        NameOnly(parts[0])
      else
        JoinThree(fields, SlashSep);
        SplitCleanParts(parts[1], SlashSep);
        FormatLineNested(parts[0], fields[0], fields[1], fields[2]);
        Entry(parts[0], fields[0], fields[1], fields[2])
  }

  /** A kept line's image name ends at the first " : " of the stripped line,
      as Python's leftmost `split` cut does. */
  lemma ImageBeforeFirstColon(line: string)
    ensures !ClassifyLine(line).Rejected? ==>
      IndexOf(Strip(line), ColonSep) == Some(|ClassifyLine(line).image|)
  {
    var k := ClassifyLine(line);
    if !k.Rejected? {
      var s := Strip(line);
      var n := |k.image| + |ColonSep|;
      assert s == k.image + ColonSep + s[n..];
      IndexOfJoined(k.image, ColonSep, s[n..]);
    }
  }

  /** The classification of every line, in file order. */
  function Kinds(lines: seq<string>): seq<LineKind> {
    MapSeq(ClassifyLine, lines)
  }

  /** A record the file's writer would produce and the reader can read back:
      no whitespace at the outer ends, and no separator inside a field or
      straddling a field's end. */
  predicate ReadableRecord(image: string, caption: string, keyword: string, mark: string) {
    && image != [] && !IsSpace(image[0])
    && mark != [] && !IsSpace(mark[|mark| - 1])
    && CleanBefore(image, ColonSep)
    && !Contains(caption + SlashSep + keyword + SlashSep + mark, ColonSep)
    && CleanBefore(caption, SlashSep)
    && CleanBefore(keyword, SlashSep)
    && !Contains(mark, SlashSep)
  }

  lemma StripFormattedLine(image: string, caption: string, keyword: string, mark: string, trailing: string)
    requires ReadableRecord(image, caption, keyword, mark)
    requires AllSpace(trailing)
    ensures Strip(FormatLine(image, caption, keyword, mark) + trailing) == FormatLine(image, caption, keyword, mark)
  {
    var line := FormatLine(image, caption, keyword, mark);
    FormatLineNested(image, caption, keyword, mark);
    assert line[0] == image[0];
    assert line[|line| - 1] == mark[|mark| - 1];
    StripSurrounded([], line, trailing);
    assert [] + line + trailing == line + trailing;
  }

  lemma SplitFormattedLine(image: string, caption: string, keyword: string, mark: string)
    requires ReadableRecord(image, caption, keyword, mark)
    ensures Split(FormatLine(image, caption, keyword, mark), ColonSep)
         == [image, caption + SlashSep + keyword + SlashSep + mark]
  {
    FormatLineNested(image, caption, keyword, mark);
    var parts := [image, caption + SlashSep + keyword + SlashSep + mark];
    JoinTwo(parts, ColonSep);
    SplitJoin(parts, ColonSep);
  }

  lemma SplitFields(caption: string, keyword: string, mark: string)
    requires CleanBefore(caption, SlashSep) && CleanBefore(keyword, SlashSep) && !Contains(mark, SlashSep)
    ensures Split(caption + SlashSep + keyword + SlashSep + mark, SlashSep) == [caption, keyword, mark]
  {
    var fields := [caption, keyword, mark];
    JoinThree(fields, SlashSep);
    SplitJoin(fields, SlashSep);
  }

  /** Reading back a formatted line, with any trailing newline or blanks the
      file adds, recovers its four fields. */
  lemma ClassifyFormattedLine(image: string, caption: string, keyword: string, mark: string, trailing: string)
    requires ReadableRecord(image, caption, keyword, mark)
    requires AllSpace(trailing)
    ensures ClassifyLine(FormatLine(image, caption, keyword, mark) + trailing)
         == Entry(image, caption, keyword, mark)
  {
    StripFormattedLine(image, caption, keyword, mark, trailing);
    SplitFormattedLine(image, caption, keyword, mark);
    SplitFields(caption, keyword, mark);
  }

  /** A line with no " : ", with two or more non-overlapping " : ", or with
      nothing but whitespace contributes to none of the four lists. */
  lemma WrongColonCountRejected(line: string, occ: seq<int>)
    requires || AllSpace(line)
             || !Contains(Strip(line), ColonSep)
             || (|occ| >= 2 && Disjoint(Strip(line), ColonSep, occ))
    ensures ClassifyLine(line) == Rejected
  {
    if |occ| >= 2 && Disjoint(Strip(line), ColonSep, occ) {
      SplitAtLeast(Strip(line), ColonSep, occ);
    }
  }

  /** Three " / "-joined fields of which one holds " / " split into more
      than three parts. */
  lemma SlashInsideField(c: string, k: string, l: string)
    requires Contains(c, SlashSep) || Contains(k, SlashSep) || Contains(l, SlashSep)
    ensures |Split(c + SlashSep + k + SlashSep + l, SlashSep)| > 3
  {
    if Contains(c, SlashSep) {
      var j :| 0 <= j <= |c| && OccursAt(c, SlashSep, j);
      SlashInCaption(c, k, l, j);
    } else if Contains(k, SlashSep) {
      var j :| 0 <= j <= |k| && OccursAt(k, SlashSep, j);
      SlashInKeyword(c, k, l, j);
    } else {
      var j :| 0 <= j <= |l| && OccursAt(l, SlashSep, j);
      SlashInLabel(c, k, l, j);
    }
  }

  lemma SlashInCaption(c: string, k: string, l: string, j: nat)
    requires OccursAt(c, SlashSep, j)
    ensures |Split(c + SlashSep + k + SlashSep + l, SlashSep)| > 3
  {
    var s := c + SlashSep + k + SlashSep + l;
    var p1 := |c|;
    var p2 := |c| + 3 + |k|;
    assert s[j..j + 3] == c[j..j + 3];
    assert s[p1..p1 + 3] == SlashSep;
    assert s[p2..p2 + 3] == SlashSep;
    ThreeApart(s, SlashSep, j, p1, p2);
  }

  lemma SlashInKeyword(c: string, k: string, l: string, j: nat)
    requires OccursAt(k, SlashSep, j)
    ensures |Split(c + SlashSep + k + SlashSep + l, SlashSep)| > 3
  {
    var s := c + SlashSep + k + SlashSep + l;
    var p1 := |c|;
    var p2 := |c| + 3 + |k|;
    assert s[p1..p1 + 3] == SlashSep;
    assert s[p1 + 3 + j..p1 + 3 + j + 3] == k[j..j + 3];
    assert s[p2..p2 + 3] == SlashSep;
    ThreeApart(s, SlashSep, p1, p1 + 3 + j, p2);
  }

  lemma SlashInLabel(c: string, k: string, l: string, j: nat)
    requires OccursAt(l, SlashSep, j)
    ensures |Split(c + SlashSep + k + SlashSep + l, SlashSep)| > 3
  {
    var s := c + SlashSep + k + SlashSep + l;
    var p1 := |c|;
    var p2 := |c| + 3 + |k|;
    assert s[p1..p1 + 3] == SlashSep;
    assert s[p2..p2 + 3] == SlashSep;
    assert s[p2 + 3 + j..p2 + 3 + j + 3] == l[j..j + 3];
    ThreeApart(s, SlashSep, p1, p2, p2 + 3 + j);
  }

  /** Three non-overlapping occurrences give at least four parts. */
  lemma ThreeApart(s: string, sep: string, a: int, b: int, c: int)
    requires |sep| > 0 && OccursAt(s, sep, a) && OccursAt(s, sep, b) && OccursAt(s, sep, c)
    requires a + |sep| <= b && b + |sep| <= c
    ensures |Split(s, sep)| > 3
  {
    var occ := [a, b, c];
    assert Disjoint(s, sep, occ);
    SplitAtLeast(s, sep, occ);
  }

  /** A caption, keyword or label that itself holds " / " yields more than
      three sub-parts, so the caption, keyword and label of that line are
      dropped while its image name is still kept. */
  lemma ExtraSlashDropsRecord(line: string, c: string, k: string, l: string)
    requires |Split(Strip(line), ColonSep)| == 2
    requires Split(Strip(line), ColonSep)[1] == c + SlashSep + k + SlashSep + l
    requires Contains(c, SlashSep) || Contains(k, SlashSep) || Contains(l, SlashSep)
    ensures ClassifyLine(line) == NameOnly(Split(Strip(line), ColonSep)[0])
  {
    SlashInsideField(c, k, l);
  }

  /** A three-character separator cannot occur in a string whose inner
      characters all differ from the separator's middle one. */
  lemma NoOccurrence(s: string, sep: string)
    requires |sep| == 3
    requires forall k :: 1 <= k < |s| - 1 ==> s[k] != sep[1]
    ensures !Contains(s, sep)
  {
    forall j | 0 <= j <= |s| ensures !OccursAt(s, sep, j) {
      if j + 3 <= |s| {
        assert s[j..j + 3][1] == s[j + 1];
      }
    }
  }

  /** A line with exactly one " : " and no " / " after it keeps only its
      image name. */
  lemma ClassifyNameOnlyLine(image: string, rest: string)
    requires image != [] && !IsSpace(image[0])
    requires rest != [] && !IsSpace(rest[|rest| - 1])
    requires CleanBefore(image, ColonSep)
    requires !Contains(rest, ColonSep) && !Contains(rest, SlashSep)
    ensures ClassifyLine(image + ColonSep + rest) == NameOnly(image)
  {
    var line := image + ColonSep + rest;
    assert line[0] == image[0];
    assert line[|line| - 1] == rest[|rest| - 1];
    StripTrimmed(line);
    SplitNone(rest, ColonSep);
    SplitPrefix(image, ColonSep, rest, [rest]);
    SplitNone(rest, SlashSep);
    ClassifyByParts(line, image, rest);
  }

  /** The classification read off the two splits of the stripped line. */
  lemma ClassifyByParts(line: string, image: string, rest: string)
    requires Split(Strip(line), ColonSep) == [image, rest]
    ensures |Split(rest, SlashSep)| != 3 ==> ClassifyLine(line) == NameOnly(image)
    ensures var fields := Split(rest, SlashSep);
      |fields| == 3 ==> ClassifyLine(line) == Entry(image, fields[0], fields[1], fields[2])
  {
  }

  /** Overlapping separators count once: "a : : b" splits into "a" and ": b",
      so it passes the first split although " : " occurs at 1 and at 3. */
  lemma OverlappingColonsPassFirstSplit()
    ensures ClassifyLine("a : : b") == NameOnly("a")
  {
    NoOccurrence("a :", ColonSep);
    assert "a" + ColonSep[..2] == "a :";
    NoOccurrence(": b", ColonSep);
    NoOccurrence(": b", SlashSep);
    assert "a : : b" == "a" + ColonSep + ": b";
    ClassifyNameOnlyLine("a", ": b");
  }

  /** The four lists `load_captions_and_keywords` returns. */
  datatype Parsed = Parsed(imageFiles: seq<string>, captions: seq<string>, keywords: seq<string>, labels: seq<string>)

  function Merge(p: Parsed, q: Parsed): Parsed {
    Parsed(p.imageFiles + q.imageFiles, p.captions + q.captions, p.keywords + q.keywords, p.labels + q.labels)
  }

  /** The effect of one line on the four lists, as the script's nested `if`
      has it: the image name is appended at the two-part check. */
  function Absorb(p: Parsed, k: LineKind): Parsed {
    match k
    case Rejected => p
    case NameOnly(image) => p.(imageFiles := p.imageFiles + [image])
    case Entry(image, caption, keyword, mark) =>
      Parsed(p.imageFiles + [image], p.captions + [caption], p.keywords + [keyword], p.labels + [mark])
  }

  predicate IsNamed(k: LineKind) { !k.Rejected? }
  predicate IsEntry(k: LineKind) { k.Entry? }
  predicate IsNameOnly(k: LineKind) { k.NameOnly? }

  /** The four lists built from classified lines, in order. */
  function Collect(kinds: seq<LineKind>): (p: Parsed)
    ensures |p.captions| == |p.keywords| == |p.labels|
    ensures |p.imageFiles| == |p.captions| + |Filter(IsNameOnly, kinds)|
    decreases |kinds|
  {
    if kinds == [] then
      Parsed([], [], [], [])
    else
      var front := kinds[..|kinds| - 1];
      assert kinds == front + [kinds[|kinds| - 1]];
      FilterAppend(IsNameOnly, front, [kinds[|kinds| - 1]]);
      Absorb(Collect(front), kinds[|kinds| - 1])
  }

  /** `load_captions_and_keywords` over the lines of the file. */
  function Parse(lines: seq<string>): Parsed {
    Collect(Kinds(lines))
  }

  /** Lines that add an image name but no caption, keyword or label. */
  function NameOnlyCount(lines: seq<string>): nat {
    |Filter(IsNameOnly, Kinds(lines))|
  }

  /** The three inner lists always have the same length, and the image list
      is longer by exactly the number of name-only lines. */
  lemma ParseLengths(lines: seq<string>)
    ensures |Parse(lines).captions| == |Parse(lines).keywords| == |Parse(lines).labels|
    ensures |Parse(lines).imageFiles| == |Parse(lines).captions| + NameOnlyCount(lines)
  {
  }

  /** There are at least as many image names as captions, and exactly as
      many precisely when no line passes the " : " split while failing the
      " / " split. */
  lemma ImagesOutnumberCaptions(lines: seq<string>)
    ensures |Parse(lines).imageFiles| >= |Parse(lines).captions|
    ensures |Parse(lines).imageFiles| == |Parse(lines).captions|
        <==> forall i :: 0 <= i < |lines| ==> !ClassifyLine(lines[i]).NameOnly?
  {
    ParseLengths(lines);
    FilterMapEmpty(IsNameOnly, ClassifyLine, lines);
  }

  /** Order of the lists: the i-th image name comes from the i-th line that
      passes the " : " split, while the i-th caption, keyword and label come
      from the i-th line that passes both splits. */
  lemma CollectOrder(kinds: seq<LineKind>)
    ensures var named := Filter(IsNamed, kinds);
      && |Collect(kinds).imageFiles| == |named|
      && forall i :: 0 <= i < |named| ==> Collect(kinds).imageFiles[i] == named[i].image
    ensures var entries := Filter(IsEntry, kinds);
      && |Collect(kinds).captions| == |entries|
      && forall i :: 0 <= i < |entries| ==>
           entries[i] == Entry(entries[i].image, Collect(kinds).captions[i],
                               Collect(kinds).keywords[i], Collect(kinds).labels[i])
  {
    CollectImageOrder(kinds);
    CollectEntryOrder(kinds);
  }

  lemma {:induction false} CollectImageOrder(kinds: seq<LineKind>)
    ensures var named := Filter(IsNamed, kinds);
      && |Collect(kinds).imageFiles| == |named|
      && forall i :: 0 <= i < |named| ==> Collect(kinds).imageFiles[i] == named[i].image
    decreases |kinds|
  {
    if kinds != [] {
      var front := kinds[..|kinds| - 1];
      var last := kinds[|kinds| - 1];
      assert kinds == front + [last];
      CollectSnoc(front, last);
      FilterAppend(IsNamed, front, [last]);
      CollectImageOrder(front);
    }
  }

  lemma {:induction false} CollectEntryOrder(kinds: seq<LineKind>)
    ensures var entries := Filter(IsEntry, kinds);
      && |Collect(kinds).captions| == |entries|
      && forall i :: 0 <= i < |entries| ==>
           entries[i] == Entry(entries[i].image, Collect(kinds).captions[i],
                               Collect(kinds).keywords[i], Collect(kinds).labels[i])
    decreases |kinds|
  {
    if kinds != [] {
      var front := kinds[..|kinds| - 1];
      var last := kinds[|kinds| - 1];
      assert kinds == front + [last];
      CollectSnoc(front, last);
      FilterAppend(IsEntry, front, [last]);
      CollectEntryOrder(front);
    }
  }

  /** Reading distributes over splitting the file into two runs of lines. */
  lemma {:induction false} CollectAppend(a: seq<LineKind>, b: seq<LineKind>)
    ensures Collect(a + b) == Merge(Collect(a), Collect(b))
    decreases |b|
  {
    if b == [] {
      assert a + b == a;
    } else {
      var front := b[..|b| - 1];
      var last := b[|b| - 1];
      assert b == front + [last];
      assert a + b == (a + front) + [last];
      CollectSnoc(a + front, last);
      CollectSnoc(front, last);
      CollectAppend(a, front);
      MergeAbsorb(Collect(a), Collect(front), last);
    }
  }

  lemma MergeAbsorb(p: Parsed, q: Parsed, k: LineKind)
    ensures Absorb(Merge(p, q), k) == Merge(p, Absorb(q, k))
  {
    match k
    case Rejected =>
    case NameOnly(image) =>
      AppendAssoc(p.imageFiles, q.imageFiles, [image]);
    case Entry(image, caption, keyword, mark) =>
      AppendAssoc(p.imageFiles, q.imageFiles, [image]);
      AppendAssoc(p.captions, q.captions, [caption]);
      AppendAssoc(p.keywords, q.keywords, [keyword]);
      AppendAssoc(p.labels, q.labels, [mark]);
  }

  lemma CollectSkipsRejected(a: seq<LineKind>, b: seq<LineKind>)
    ensures Collect(a + [Rejected] + b) == Collect(a + b)
  {
    CollectAppend(a + [Rejected], b);
    CollectAppend(a, [Rejected]);
    CollectAppend(a, b);
    assert Collect([Rejected]) == Collect([] + [Rejected]);
  }

  lemma KindsAround(pre: seq<string>, line: string, post: seq<string>)
    ensures Kinds(pre + [line] + post) == Kinds(pre) + [ClassifyLine(line)] + Kinds(post)
  {
    MapSeqAround(ClassifyLine, pre, line, post);
  }

  /** A rejected line can be deleted from the file without any effect. */
  lemma RejectedLineContributesNothing(pre: seq<string>, line: string, post: seq<string>)
    requires ClassifyLine(line) == Rejected
    ensures Parse(pre + [line] + post) == Parse(pre + post)
  {
    KindsAround(pre, line, post);
    MapSeqAppend(ClassifyLine, pre, post);
    CollectSkipsRejected(Kinds(pre), Kinds(post));
  }

  lemma CollectSnoc(ks: seq<LineKind>, k: LineKind)
    ensures Collect(ks + [k]) == Absorb(Collect(ks), k)
  {
    assert (ks + [k])[..|ks|] == ks;
  }

  lemma KindsSnoc(lines: seq<string>, i: nat)
    requires i < |lines|
    ensures Kinds(lines[..i + 1]) == Kinds(lines[..i]) + [ClassifyLine(lines[i])]
  {
    MapSeqSnoc(ClassifyLine, lines, i);
  }

  /** One pass of the reader's loop body: split the stripped line at " : "
      and, if that gives two parts, record the image and try the " / " split. */
  method ReadLine(line: string, before: Parsed) returns (after: Parsed)
    ensures after == Absorb(before, ClassifyLine(line))
  {
    after := before;
    var parts := Split(Strip(line), ColonSep);
    if |parts| == 2 {
      after := after.(imageFiles := after.imageFiles + [parts[0]]);
      var captionKeywordSim := Split(parts[1], SlashSep);
      if |captionKeywordSim| == 3 {
        after := after.(captions := after.captions + [captionKeywordSim[0]],
                        keywords := after.keywords + [captionKeywordSim[1]],
                        labels := after.labels + [captionKeywordSim[2]]);
      }
    }
  }

  /** `load_captions_and_keywords` as the script writes it: one loop over
      the lines with the nested `if`s and `append`s. */
  method LoadCaptionsAndKeywords(lines: seq<string>)
    returns (imageFiles: seq<string>, blip2Captions: seq<string>, keywords: seq<string>, manualScores: seq<string>)
    ensures Parsed(imageFiles, blip2Captions, keywords, manualScores) == Parse(lines)
    ensures |blip2Captions| == |keywords| == |manualScores| <= |imageFiles|
  {
    var acc := Parsed([], [], [], []);
    var i := 0;
    while i < |lines|
      invariant 0 <= i <= |lines|
      invariant acc == Collect(Kinds(lines[..i]))
    {
      acc := ReadLine(lines[i], acc);
      KindsSnoc(lines, i);
      CollectSnoc(Kinds(lines[..i]), ClassifyLine(lines[i]));
      i := i + 1;
    }
    assert lines[..i] == lines;
    imageFiles, blip2Captions, keywords, manualScores := acc.imageFiles, acc.captions, acc.keywords, acc.labels;
  }

  /** The reader the format evidently intends: a line contributes to all four
      lists or to none, so the i-th image name belongs with the i-th caption. */
  function CollectAligned(kinds: seq<LineKind>): (p: Parsed)
    ensures var entries := Filter(IsEntry, kinds);
      && |p.imageFiles| == |p.captions| == |p.keywords| == |p.labels| == |entries|
      && forall i :: 0 <= i < |entries| ==>
           entries[i] == Entry(p.imageFiles[i], p.captions[i], p.keywords[i], p.labels[i])
    decreases |kinds|
  {
    if kinds == [] then
      Parsed([], [], [], [])
    else
      var front := kinds[..|kinds| - 1];
      var last := kinds[|kinds| - 1];
      assert kinds == front + [last];
      FilterAppend(IsEntry, front, [last]);
      var p := CollectAligned(front);
      match last
      case Entry(image, caption, keyword, mark) =>
        Parsed(p.imageFiles + [image], p.captions + [caption], p.keywords + [keyword], p.labels + [mark])
      case _ => p
  }

  function ParseAligned(lines: seq<string>): Parsed {
    CollectAligned(Kinds(lines))
  }

  /** On a file without name-only lines the script's reader already behaves
      as intended. */
  lemma {:induction false} CollectAlignedAgrees(kinds: seq<LineKind>)
    requires Filter(IsNameOnly, kinds) == []
    ensures CollectAligned(kinds) == Collect(kinds)
    decreases |kinds|
  {
    if kinds != [] {
      var front := kinds[..|kinds| - 1];
      assert kinds == front + [kinds[|kinds| - 1]];
      FilterAppend(IsNameOnly, front, [kinds[|kinds| - 1]]);
      CollectAlignedAgrees(front);
    }
  }

  /** The discrepancy on a two-line file whose first line has no " / "
      fields: the script's reader keeps "x.jpg" beside the caption of
      "y.jpg"; the intended reader drops the first line entirely. */
  lemma MisalignmentExample()
    ensures Parse(["x.jpg : no fields", "y.jpg : a dog / dog / O"])
         == Parsed(["x.jpg", "y.jpg"], ["a dog"], ["dog"], ["O"])
    ensures ParseAligned(["x.jpg : no fields", "y.jpg : a dog / dog / O"])
         == Parsed(["y.jpg"], ["a dog"], ["dog"], ["O"])
  {
    ExampleKinds();
    ExampleCollect();
  }

  lemma ExampleCollect()
    ensures Collect([NameOnly("x.jpg"), Entry("y.jpg", "a dog", "dog", "O")])
         == Parsed(["x.jpg", "y.jpg"], ["a dog"], ["dog"], ["O"])
    ensures CollectAligned([NameOnly("x.jpg"), Entry("y.jpg", "a dog", "dog", "O")])
         == Parsed(["y.jpg"], ["a dog"], ["dog"], ["O"])
  {
    var ks := [NameOnly("x.jpg"), Entry("y.jpg", "a dog", "dog", "O")];
    assert ks[..1] == [NameOnly("x.jpg")];
    assert ks[..1][..0] == [];
  }

  lemma ExampleKinds()
    ensures Kinds(["x.jpg : no fields", "y.jpg : a dog / dog / O"])
         == [NameOnly("x.jpg"), Entry("y.jpg", "a dog", "dog", "O")]
  {
    KindsPair("x.jpg : no fields", "y.jpg : a dog / dog / O");
    ExampleLineX();
    ExampleLineY();
  }

  lemma KindsPair(a: string, b: string)
    ensures Kinds([a, b]) == [ClassifyLine(a), ClassifyLine(b)]
  {
    MapSeqPair(ClassifyLine, a, b);
  }

  lemma ExampleLineX()
    ensures ClassifyLine("x.jpg : no fields") == NameOnly("x.jpg")
  {
    NoOccurrence("x.jpg :", ColonSep);
    assert "x.jpg" + ColonSep[..2] == "x.jpg :";
    NoOccurrence("no fields", ColonSep);
    NoOccurrence("no fields", SlashSep);
    assert "x.jpg : no fields" == "x.jpg" + ColonSep + "no fields";
    ClassifyNameOnlyLine("x.jpg", "no fields");
  }

  lemma ExampleLineY()
    ensures ClassifyLine("y.jpg : a dog / dog / O") == Entry("y.jpg", "a dog", "dog", "O")
  {
    NoOccurrence("y.jpg :", ColonSep);
    assert "y.jpg" + ColonSep[..2] == "y.jpg :";
    NoOccurrence("a dog / dog / O", ColonSep);
    assert "a dog" + SlashSep + "dog" + SlashSep + "O" == "a dog / dog / O";
    NoOccurrence("a dog /", SlashSep);
    assert "a dog" + SlashSep[..2] == "a dog /";
    NoOccurrence("dog /", SlashSep);
    assert "dog" + SlashSep[..2] == "dog /";
    NoOccurrence("O", SlashSep);
    assert "y.jpg : a dog / dog / O" == FormatLine("y.jpg", "a dog", "dog", "O") + [];
    ClassifyFormattedLine("y.jpg", "a dog", "dog", "O", []);
  }
}
