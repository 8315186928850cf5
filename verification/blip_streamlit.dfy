/** `blip_streamlit.py`: each uploaded photo gets a caption from the
    captioning model and three optional text fields; the diary prompt is a
    fixed preamble, the date line, the photo-information header, one numbered
    block per photo in upload order, and the guidelines with the optional
    mood. The captioner's output and the date are inputs here. */
module BlipStreamlit {
  import opened PyStrings
  import opened Seqs
  import opened DiaryCommon

  /** What one uploaded photo supplies: its file name, the captioner's
      decoded text, and the person, location and keyword fields as typed. */
  datatype Upload = Upload(name: string, generated: string, person: string, location: string, keywords: string)

  /** The record kept per photo. */
  datatype CaptionInfo = CaptionInfo(image: string, caption: string, person: string, location: string, keywords: string)

  /** The per-photo record: the caption is the stripped model output, and an
      empty location becomes "어딘가"; an empty person or keyword field falls
      back to the empty string, which leaves every field as typed. */
  function MakeCaptionInfo(u: Upload): (c: CaptionInfo)
    ensures c.image == u.name && c.caption == Strip(u.generated)
    ensures c.person == u.person && c.keywords == u.keywords
    ensures u.location != [] ==> c.location == u.location
    ensures u.location == [] ==> c.location == SomewhereLocation
  {
    CaptionInfo(u.name, Strip(u.generated), Default(u.person, ""),
                Default(u.location, SomewhereLocation), Default(u.keywords, ""))
  }

  const Preamble: string :=
    "오늘 찍은 사진들을 보고 일기를 작성해주세요.\n"
    + "각 사진에는 AI가 생성한 캡션과 함께 장소, 함께한 사람들, 활동 키워드가 제공됩니다.\n"
    + "이 정보들을 자연스럽게 활용하여 실제 있었던 일만을 서술해주세요.\n"

  function DateLine(date: string): string {
    "다음은 " + date + "에 있었던 일들에 대한 일기를 작성하기 위한 정보입니다.\n\n"
  }

  const BaseGuidelines: string :=
    "\n**일기 작성 가이드라인**:\n"
    + "1. **일기의 주체는 \"나\"**이며, 함께한 사람들을 적절히 언급해주세요.\n"
    + "2. **AI 캡션, 장소, 인물, 활동 키워드를 적극적으로 활용**하여 실제 경험을 기록하는 것처럼 자연스럽게 서술해주세요.\n"
    + "3. **감정 표현을 추가적으로 반영**하여 좀 더 몰입할 수 있는 글이 되도록 해주세요.\n"
    + "4. **사진이 업로드된 순서를 시간 순서로 간주하고**, 입력된 순서대로 일기를 작성해주세요. (밤에 찍은 사진 뒤에 낮에 찍은 사진이 오면, 다음 날로 간주해주세요)\n"
    + "5. **주어진 정보만을 활용**하여, 일기를 작성해주세요."

  /** Everything before the photo blocks. */
  function Head(date: string): string {
    Preamble + DateLine(date) + PhotoInfoHeader
  }

  function NumberLine(i: nat): string {
    "사진 " + NatToString(i) + "\n"
  }

  function FieldLines(c: CaptionInfo): string {
    "- AI 캡션: " + c.caption + "\n  장소: " + c.location + "\n  함께한 사람: " + c.person
    + "\n  키워드: " + c.keywords + "\n\n"
  }

  /** The block of the photo numbered `i`. */
  function PhotoBlock(i: nat, c: CaptionInfo): string {
    NumberLine(i) + FieldLines(c)
  }

  /** One block per photo, numbered from 1 in upload order. */
  function PhotoBlocks(infos: seq<CaptionInfo>): (blocks: seq<string>)
    ensures |blocks| == |infos|
    ensures forall i :: 0 <= i < |infos| ==> blocks[i] == PhotoBlock(i + 1, infos[i])
  {
    seq(|infos|, i requires 0 <= i < |infos| => PhotoBlock(i + 1, infos[i]))
  }

  /** The text sent to the chat model. */
  function DiaryPrompt(infos: seq<CaptionInfo>, date: string, mood: string): string {
    Head(date) + Concat(PhotoBlocks(infos)) + Guidelines(BaseGuidelines, mood)
  }

  /** The prompt as the script builds it, one `+=` at a time. */
  method BuildDiaryPrompt(infos: seq<CaptionInfo>, date: string, mood: string) returns (prompt: string)
    ensures prompt == DiaryPrompt(infos, date, mood)
  {
    ghost var blocks := PhotoBlocks(infos);
    prompt := Preamble;
    prompt := prompt + DateLine(date);
    prompt := prompt + PhotoInfoHeader;
    var i := 0;
    while i < |infos|
      invariant 0 <= i <= |infos|
      invariant prompt == Head(date) + Concat(blocks[..i])
    {
      ghost var done := Concat(blocks[..i]);
      prompt := AppendBlock(prompt, i + 1, infos[i]);
      ConcatSnoc(blocks, i);
      AppendAssoc(Head(date), done, blocks[i]);
      i := i + 1;
    }
    assert blocks[..i] == blocks;
    if Strip(mood) != [] {
      prompt := prompt + (BaseGuidelines + MoodGuideline(mood));
    } else {
      prompt := prompt + BaseGuidelines;
    }
  }

  /** One pass of the block loop: the number line, then the field lines. */
  method AppendBlock(before: string, i: nat, c: CaptionInfo) returns (after: string)
    ensures after == before + PhotoBlock(i, c)
  {
    after := before + NumberLine(i);
    after := after + FieldLines(c);
  }

  /** The whole flow from uploads to prompt, on the day given by `year`,
      `month`, `day` and the weekday index `w` (0 is Monday), which the
      script reads from the clock at start-up. */
  function PromptFromUploads(uploads: seq<Upload>, year: nat, month: nat, day: nat, w: nat, mood: string): string
    requires w < 7
  {
    DiaryPrompt(MapSeq(MakeCaptionInfo, uploads), FormattedDate(year, month, day, w), mood)
  }

  /** The prompt's second line names the day as `formatted_date` writes it;
      `DateLineInjective` shows that line determines the year, month, day and
      weekday. */
  lemma PromptDateLine(uploads: seq<Upload>, year: nat, month: nat, day: nat, w: nat, mood: string)
    requires w < 7
    ensures OccursAt(PromptFromUploads(uploads, year, month, day, w, mood),
                     DateLine(FormattedDate(year, month, day, w)), |Preamble|)
  {
    DateLinePosition(MapSeq(MakeCaptionInfo, uploads), FormattedDate(year, month, day, w), mood);
  }

  /** Whatever the date, its line follows the preamble. */
  lemma DateLinePosition(infos: seq<CaptionInfo>, date: string, mood: string)
    ensures OccursAt(DiaryPrompt(infos, date, mood), DateLine(date), |Preamble|)
  {
    SecondPiece(Preamble, DateLine(date), PhotoInfoHeader, Concat(PhotoBlocks(infos)), Guidelines(BaseGuidelines, mood));
  }

  /** In a concatenation of five pieces the second follows the first. */
  lemma SecondPiece(a: string, b: string, c: string, x: string, g: string)
    ensures var p := a + b + c + x + g;
      |a| + |b| <= |p| && p[|a|..|a| + |b|] == b
  {
    var p := a + b + c + x + g;
    assert p == a + b + (c + x + g);
  }

  /** Two date lines are equal only for the same day. */
  lemma DateLineInjective(y1: nat, m1: nat, d1: nat, w1: nat, y2: nat, m2: nat, d2: nat, w2: nat)
    requires w1 < 7 && w2 < 7
    requires DateLine(FormattedDate(y1, m1, d1, w1)) == DateLine(FormattedDate(y2, m2, d2, w2))
    ensures y1 == y2 && m1 == m2 && d1 == d2 && w1 == w2
  {
    var a := FormattedDate(y1, m1, d1, w1);
    var b := FormattedDate(y2, m2, d2, w2);
    var head := "다음은 ";
    var tail := "에 있었던 일들에 대한 일기를 작성하기 위한 정보입니다.\n\n";
    assert DateLine(a) == head + a + tail;
    assert DateLine(b) == head + b + tail;
    assert |a| == |b|;
    assert a == DateLine(a)[|head|..|head| + |a|];
    assert b == DateLine(b)[|head|..|head| + |b|];
    FormattedDateInjective(y1, m1, d1, w1, y2, m2, d2, w2);
  }

  /** The prompt opens with the preamble, the date line and the header, and
      block `i` (numbered `i + 1`, see `PhotoBlocks`) follows the blocks of
      the photos before it. */
  lemma PromptLayout(infos: seq<CaptionInfo>, date: string, mood: string, i: nat)
    requires i < |infos|
    ensures var p := DiaryPrompt(infos, date, mood);
      var at := |Head(date)| + |Concat(PhotoBlocks(infos)[..i])|;
      && p[..|Head(date)|] == Head(date)
      && at + |PhotoBlocks(infos)[i]| <= |p|
      && p[at..at + |PhotoBlocks(infos)[i]|] == PhotoBlocks(infos)[i]
  {
    ConcatLayout(Head(date), PhotoBlocks(infos), Guidelines(BaseGuidelines, mood), i);
  }

  /** The base guidelines end with a period. */
  lemma BaseGuidelinesEndWithPeriod()
    ensures BaseGuidelines != [] && BaseGuidelines[|BaseGuidelines| - 1] == '.'
  {
    var last := "5. **주어진 정보만을 활용**하여, 일기를 작성해주세요.";
    assert BaseGuidelines[|BaseGuidelines| - 1] == last[|last| - 1];
  }

  /** Guideline 6 closes the prompt exactly when `mood.strip()` is
      non-empty; otherwise the prompt ends with the base guidelines. */
  lemma PromptMoodIff(infos: seq<CaptionInfo>, date: string, mood: string)
    ensures EndsWith(DiaryPrompt(infos, date, mood), MoodGuideline(mood)) <==> !AllSpace(mood)
    ensures AllSpace(mood) <==> DiaryPrompt(infos, date, mood) == Head(date) + Concat(PhotoBlocks(infos)) + BaseGuidelines
  {
    BaseGuidelinesEndWithPeriod();
    GuidelinesMoodIff(Head(date) + Concat(PhotoBlocks(infos)), BaseGuidelines, mood);
    if DiaryPrompt(infos, date, mood) == Head(date) + Concat(PhotoBlocks(infos)) + BaseGuidelines {
      var pre := Head(date) + Concat(PhotoBlocks(infos));
      assert |pre + Guidelines(BaseGuidelines, mood)| == |pre + BaseGuidelines|;
    }
  }

  /** Two blocks with the same text carry the same number: the number is
      read back from the digits after "사진 ". */
  lemma BlockNumbersDistinct(i: nat, j: nat, c: CaptionInfo, d: CaptionInfo)
    requires PhotoBlock(i, c) == PhotoBlock(j, d)
    ensures i == j
  {
    PhotoBlockShape(i, c);
    PhotoBlockShape(j, d);
    var a := PhotoBlock(i, c);
    assert a[3..] == NatToString(i) + ['\n'] + FieldLines(c);
    assert a[3..] == NatToString(j) + ['\n'] + FieldLines(d);
    DigitRunPrefix(NatToString(i), '\n', FieldLines(c), NatToString(j), '\n', FieldLines(d));
    NatToStringInjective(i, j);
  }

  /** A block is the three code points of "사진 ", the number's digits, a
      newline and the field lines. */
  lemma PhotoBlockShape(i: nat, c: CaptionInfo)
    ensures |PhotoBlock(i, c)| >= 3
    ensures PhotoBlock(i, c)[3..] == NatToString(i) + ['\n'] + FieldLines(c)
  {
    var rest := NatToString(i) + ['\n'] + FieldLines(c);
    assert PhotoBlock(i, c) == "사진 " + rest;
  }

  /** The file names never reach the prompt: uploads that differ only in
      their names give the same prompt. */
  lemma PromptIgnoresImageNames(a: seq<CaptionInfo>, b: seq<CaptionInfo>, date: string, mood: string)
    requires |a| == |b|
    requires forall i :: 0 <= i < |a| ==> a[i].(image := b[i].image) == b[i]
    ensures DiaryPrompt(a, date, mood) == DiaryPrompt(b, date, mood)
  {
    forall i | 0 <= i < |a| ensures PhotoBlocks(a)[i] == PhotoBlocks(b)[i] {
      assert FieldLines(a[i]) == FieldLines(a[i].(image := b[i].image));
    }
    assert PhotoBlocks(a) == PhotoBlocks(b);
  }

  /** Block `i` of the prompt built from the uploads carries upload `i`'s
      stripped caption and its fields as typed, with "어딘가" for an empty
      location. */
  lemma UploadBlock(uploads: seq<Upload>, i: nat)
    requires i < |uploads|
    ensures var u := uploads[i];
      var loc := if u.location == [] then SomewhereLocation else u.location;
      PhotoBlocks(MapSeq(MakeCaptionInfo, uploads))[i]
        == PhotoBlock(i + 1, CaptionInfo(u.name, Strip(u.generated), u.person, loc, u.keywords))
  {
  }
}
