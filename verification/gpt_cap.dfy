/** `gpt_cap.py`: the captions-only variant of the diary page. Each photo
    keeps its file name and the stripped caption; the prompt is a preamble,
    the photo-information header, one numbered caption block per photo in
    upload order, and the guidelines with the optional mood. The date is
    formatted only after the reply arrives, for display, so the prompt does
    not depend on it. */
module GptCap {
  import opened PyStrings
  import opened Seqs
  import opened DiaryCommon

  /** The record kept per photo: file name and caption, nothing defaulted. */
  datatype CaptionRecord = CaptionRecord(image: string, caption: string)

  function MakeCaptionRecord(name: string, generated: string): (r: CaptionRecord)
    ensures r.image == name
    ensures r.caption == Strip(generated) && Trimmed(r.caption)
  {
    CaptionRecord(name, Strip(generated))
  }

  const Preamble: string :=
    "오늘 찍은 사진들을 보고 일기를 작성해주세요.\n"
    + "각 사진에는 AI가 생성한 캡션이 제공됩니다.\n"
    + "이 정보들을 자연스럽게 활용하여 실제 있었던 일만을 서술해주세요.\n"

  const BaseGuidelines: string :=
    "\n**일기 작성 가이드라인**:\n"
    + "1. **일기의 주체는 \"나\"**입니다.\n"
    + "2. **AI 캡션의 장소, 인물, 활동 내용을 적극적으로 활용**하여 실제 경험을 기록하는 것처럼 자연스럽게 서술해주세요.\n"
    + "3. **감정 표현을 추가적으로 반영**하여 좀 더 몰입할 수 있는 글이 되도록 해주세요.\n"
    + "4. **사진이 업로드된 순서를 시간 순서로 간주하고**, 입력된 순서대로 일기를 작성해주세요. (밤에 찍은 사진 뒤에 낮에 찍은 사진이 오면, 다음 날로 간주해주세요)\n"
    + "5. **주어진 정보만을 활용**하여, 날짜 정보는 반영하지않고, 사실적으로 일기를 작성해주세요."

  function Head(): string {
    Preamble + PhotoInfoHeader
  }

  /** The block of the photo numbered `i`: its number, then its caption. */
  function CaptionBlock(i: nat, caption: string): string {
    "사진 " + NatToString(i) + "\n" + ("- AI 캡션: " + caption + "\n\n")
  }

  /** One block per photo, numbered from 1 in upload order. */
  function CaptionBlocks(records: seq<CaptionRecord>): (blocks: seq<string>)
    ensures |blocks| == |records|
    ensures forall i :: 0 <= i < |records| ==> blocks[i] == CaptionBlock(i + 1, records[i].caption)
  {
    seq(|records|, i requires 0 <= i < |records| => CaptionBlock(i + 1, records[i].caption))
  }

  /** The text sent to the chat model. */
  function DiaryPrompt(records: seq<CaptionRecord>, mood: string): string {
    Head() + Concat(CaptionBlocks(records)) + Guidelines(BaseGuidelines, mood)
  }

  /** The prompt as the script builds it, one `+=` at a time. */
  method BuildDiaryPrompt(records: seq<CaptionRecord>, mood: string) returns (prompt: string)
    ensures prompt == DiaryPrompt(records, mood)
  {
    ghost var blocks := CaptionBlocks(records);
    prompt := Preamble;
    prompt := prompt + PhotoInfoHeader;
    var i := 0;
    while i < |records|
      invariant 0 <= i <= |records|
      invariant prompt == Head() + Concat(blocks[..i])
    {
      ghost var done := Concat(blocks[..i]);
      prompt := AppendBlock(prompt, i + 1, records[i].caption);
      ConcatSnoc(blocks, i);
      AppendAssoc(Head(), done, blocks[i]);
      i := i + 1;
    }
    assert blocks[..i] == blocks;
    if Strip(mood) != [] {
      prompt := prompt + (BaseGuidelines + MoodGuideline(mood));
    } else {
      prompt := prompt + BaseGuidelines;
    }
  }

  /** One pass of the block loop: the number line, then the caption line. */
  method AppendBlock(before: string, i: nat, caption: string) returns (after: string)
    ensures after == before + CaptionBlock(i, caption)
  {
    after := before + ("사진 " + NatToString(i) + "\n");
    after := after + ("- AI 캡션: " + caption + "\n\n");
  }

  /** Block `i` follows the header and the blocks of the photos before it. */
  lemma PromptLayout(records: seq<CaptionRecord>, mood: string, i: nat)
    requires i < |records|
    ensures var p := DiaryPrompt(records, mood);
      var at := |Head()| + |Concat(CaptionBlocks(records)[..i])|;
      && p[..|Head()|] == Head()
      && at + |CaptionBlocks(records)[i]| <= |p|
      && p[at..at + |CaptionBlocks(records)[i]|] == CaptionBlocks(records)[i]
  {
    ConcatLayout(Head(), CaptionBlocks(records), Guidelines(BaseGuidelines, mood), i);
  }

  lemma BaseGuidelinesEndWithPeriod()
    ensures BaseGuidelines != [] && BaseGuidelines[|BaseGuidelines| - 1] == '.'
  {
    var last := "5. **주어진 정보만을 활용**하여, 날짜 정보는 반영하지않고, 사실적으로 일기를 작성해주세요.";
    assert BaseGuidelines[|BaseGuidelines| - 1] == last[|last| - 1];
  }

  /** Guideline 6 closes the prompt exactly when `mood.strip()` is
      non-empty; otherwise the prompt ends with the base guidelines. */
  lemma PromptMoodIff(records: seq<CaptionRecord>, mood: string)
    ensures EndsWith(DiaryPrompt(records, mood), MoodGuideline(mood)) <==> !AllSpace(mood)
    ensures AllSpace(mood) <==> DiaryPrompt(records, mood) == Head() + Concat(CaptionBlocks(records)) + BaseGuidelines
  {
    BaseGuidelinesEndWithPeriod();
    GuidelinesMoodIff(Head() + Concat(CaptionBlocks(records)), BaseGuidelines, mood);
    if DiaryPrompt(records, mood) == Head() + Concat(CaptionBlocks(records)) + BaseGuidelines {
      var pre := Head() + Concat(CaptionBlocks(records));
      assert |pre + Guidelines(BaseGuidelines, mood)| == |pre + BaseGuidelines|;
    }
  }

  /** Only the captions and the mood reach the prompt: photos with the same
      captions in the same order give the same prompt, whatever their names. */
  lemma PromptDependsOnlyOnCaptions(a: seq<CaptionRecord>, b: seq<CaptionRecord>, mood: string)
    requires |a| == |b|
    requires forall i :: 0 <= i < |a| ==> a[i].caption == b[i].caption
    ensures DiaryPrompt(a, mood) == DiaryPrompt(b, mood)
  {
    assert CaptionBlocks(a) == CaptionBlocks(b);
  }
}
