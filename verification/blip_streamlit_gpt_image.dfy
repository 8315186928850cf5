/** `blip_streamlit_gpt_image.py`: the variant that sends the photos
    themselves. Each photo keeps its file name, its base64 text and three
    optional fields; the prompt lists one unnumbered block per photo, and the
    user message is the prompt as a text part followed by one image part per
    photo, each a JPEG data URL. The base64 encoding is an input field. */
module BlipStreamlitGptImage {
  import opened Wrappers
  import opened PyStrings
  import opened Seqs
  import opened DiaryCommon

  /** What one uploaded photo supplies: its file name, the base64 text of
      its bytes, and the person, location and keyword fields as typed. */
  datatype Upload = Upload(name: string, encoded: string, person: string, location: string, keywords: string)

  /** The record kept per photo. */
  datatype ImageInfo = ImageInfo(fileName: string, base64Image: string, person: string, location: string, keywords: string)

  /** The person used when the field is left empty ("friends"). */
  const FriendsPerson: string := "친구들"

  /** The per-photo record: an empty person becomes "친구들", an empty
      location "어딘가"; keywords are kept as typed. */
  function MakeImageInfo(u: Upload): (info: ImageInfo)
    ensures info.fileName == u.name && info.base64Image == u.encoded
    ensures info.person == (if u.person == [] then FriendsPerson else u.person)
    ensures info.location == (if u.location == [] then SomewhereLocation else u.location)
    ensures info.keywords == u.keywords
  {
    ImageInfo(u.name, u.encoded, Default(u.person, FriendsPerson),
              Default(u.location, SomewhereLocation), Default(u.keywords, ""))
  }

  const Preamble: string :=
    "오늘 찍은 사진들을 보고 일기를 작성해주세요.\n"
    + "각 사진과 함께 장소, 함께한 사람들, 활동 키워드가 제공됩니다.\n"
    + "이 정보들을 자연스럽게 활용하여 실제 있었던 일만을 서술해주세요.\n"

  const BaseGuidelines: string :=
    "\n**일기 작성 가이드라인**:\n"
    + "1. **일기의 주체는 \"나\"**이며, 함께한 사람들을 적절히 언급해주세요.\n"
    + "2. **장소, 인물, 활동 키워드를 적극적으로 활용**하여 실제 경험을 기록하는 것처럼 자연스럽게 서술해주세요.\n"
    + "3. **감정 표현을 추가적으로 반영**하여 좀 더 몰입할 수 있는 글이 되도록 해주세요.\n"
    + "4. **사진이 업로드된 순서를 시간 순서로 간주하고**, 입력된 순서대로 일기를 작성해주세요. (밤에 찍은 사진 뒤에 낮에 찍은 사진이 오면, 다음 날로 간주해주세요)\n"
    + "5. **주어진 정보만을 활용**하여, 날짜 정보는 반영하지않고, 사실적으로 일기를 작성해주세요."

  function Head(): string {
    Preamble + PhotoInfoHeader
  }

  /** The unnumbered block of one photo. */
  function InfoBlock(info: ImageInfo): string {
    "- 사진 파일: " + info.fileName + "\n"
    + "  장소: " + info.location + "\n"
    + "  함께한 사람: " + info.person + "\n"
    + "  키워드: " + info.keywords + "\n\n"
  }

  /** The text part of the message. */
  function DiaryPrompt(infos: seq<ImageInfo>, mood: string): string {
    Head() + Concat(MapSeq(InfoBlock, infos)) + Guidelines(BaseGuidelines, mood)
  }

  /** The prompt as the script builds it, one `+=` at a time. */
  method BuildDiaryPrompt(infos: seq<ImageInfo>, mood: string) returns (prompt: string)
    ensures prompt == DiaryPrompt(infos, mood)
  {
    ghost var blocks := MapSeq(InfoBlock, infos);
    prompt := Preamble;
    prompt := prompt + PhotoInfoHeader;
    var i := 0;
    while i < |infos|
      invariant 0 <= i <= |infos|
      invariant prompt == Head() + Concat(blocks[..i])
    {
      ghost var done := Concat(blocks[..i]);
      prompt := prompt + InfoBlock(infos[i]);
      ConcatSnoc(blocks, i);
      AppendAssoc(Head(), done, blocks[i]);
      i := i + 1;
    }
    assert blocks[..i] == blocks;
    if Strip(mood) != [] {
      prompt := prompt + (BaseGuidelines + MoodGuideline(mood));
    } else {
      prompt := prompt + BaseGuidelines;
    }
  }

  /** Photo `i`'s block follows the header and the blocks of the photos
      before it. */
  lemma PromptLayout(infos: seq<ImageInfo>, mood: string, i: nat)
    requires i < |infos|
    ensures var p := DiaryPrompt(infos, mood);
      var blocks := MapSeq(InfoBlock, infos);
      var at := |Head()| + |Concat(blocks[..i])|;
      && p[..|Head()|] == Head()
      && at + |blocks[i]| <= |p|
      && p[at..at + |blocks[i]|] == blocks[i] == InfoBlock(infos[i])
  {
    ConcatLayout(Head(), MapSeq(InfoBlock, infos), Guidelines(BaseGuidelines, mood), i);
  }

  lemma BaseGuidelinesEndWithPeriod()
    ensures BaseGuidelines != [] && BaseGuidelines[|BaseGuidelines| - 1] == '.'
  {
    var last := "5. **주어진 정보만을 활용**하여, 날짜 정보는 반영하지않고, 사실적으로 일기를 작성해주세요.";
    assert BaseGuidelines[|BaseGuidelines| - 1] == last[|last| - 1];
  }

  /** Guideline 6 closes the prompt exactly when `mood.strip()` is
      non-empty; otherwise the prompt ends with the base guidelines. */
  lemma PromptMoodIff(infos: seq<ImageInfo>, mood: string)
    ensures EndsWith(DiaryPrompt(infos, mood), MoodGuideline(mood)) <==> !AllSpace(mood)
    ensures AllSpace(mood) <==> DiaryPrompt(infos, mood) == Head() + Concat(MapSeq(InfoBlock, infos)) + BaseGuidelines
  {
    BaseGuidelinesEndWithPeriod();
    GuidelinesMoodIff(Head() + Concat(MapSeq(InfoBlock, infos)), BaseGuidelines, mood);
    if DiaryPrompt(infos, mood) == Head() + Concat(MapSeq(InfoBlock, infos)) + BaseGuidelines {
      var pre := Head() + Concat(MapSeq(InfoBlock, infos));
      assert |pre + Guidelines(BaseGuidelines, mood)| == |pre + BaseGuidelines|;
    }
  }

  /** The base64 text never enters the prompt: photos that differ only in
      their encodings give the same prompt. */
  lemma PromptIgnoresEncodings(a: seq<ImageInfo>, b: seq<ImageInfo>, mood: string)
    requires |a| == |b|
    requires forall i :: 0 <= i < |a| ==> a[i].(base64Image := b[i].base64Image) == b[i]
    ensures DiaryPrompt(a, mood) == DiaryPrompt(b, mood)
  {
    forall i | 0 <= i < |a| ensures InfoBlock(a[i]) == InfoBlock(b[i]) {
      assert InfoBlock(a[i]) == InfoBlock(a[i].(base64Image := b[i].base64Image));
    }
    assert MapSeq(InfoBlock, a) == MapSeq(InfoBlock, b);
  }

  /** One element of the user message. */
  datatype Part = TextPart(text: string) | ImageUrlPart(url: string)

  /** Every image is labelled JPEG, whatever the uploaded file's type. */
  const DataUrlPrefix: string := "data:image/jpeg;base64,"

  function DataUrl(encoded: string): string {
    DataUrlPrefix + encoded
  }

  /** The user message: the prompt, then one image part per photo, in the
      order of the records. */
  function MessageContent(prompt: string, infos: seq<ImageInfo>): (parts: seq<Part>)
    ensures |parts| == |infos| + 1
    ensures parts[0] == TextPart(prompt)
    ensures forall i :: 0 <= i < |infos| ==> parts[i + 1] == ImageUrlPart(DataUrl(infos[i].base64Image))
  {
    [TextPart(prompt)] + seq(|infos|, i requires 0 <= i < |infos| => ImageUrlPart(DataUrl(infos[i].base64Image)))
  }

  /** The message as the script builds it, one `append` at a time. */
  method BuildMessageContent(prompt: string, infos: seq<ImageInfo>) returns (parts: seq<Part>)
    ensures parts == MessageContent(prompt, infos)
  {
    parts := [TextPart(prompt)];
    var i := 0;
    while i < |infos|
      invariant 0 <= i <= |infos|
      invariant |parts| == i + 1 && parts[0] == TextPart(prompt)
      invariant forall k :: 0 <= k < i ==> parts[k + 1] == ImageUrlPart(DataUrl(infos[k].base64Image))
    {
      parts := parts + [ImageUrlPart(DataUrlPrefix + infos[i].base64Image)];
      i := i + 1;
    }
  }

  /** The base64 text a data URL carries, if it is a JPEG data URL. */
  function Payload(url: string): (r: Option<string>)
    ensures r.Some? ==> DataUrl(r.value) == url
  {
    if |DataUrlPrefix| <= |url| && url[..|DataUrlPrefix|] == DataUrlPrefix then
      Some(url[|DataUrlPrefix|..])
    else
      None
  }

  /** What a receiver reads back from a message: the text of the first
      part and the payloads of the image parts after it. */
  function ImagePayloads(parts: seq<Part>): seq<Option<string>> {
    seq(|parts|, i requires 0 <= i < |parts| => if parts[i].ImageUrlPart? then Payload(parts[i].url) else None)
  }

  /** Reading the message back recovers the prompt and every photo's base64
      text, in upload order. */
  lemma MessageRoundTrip(prompt: string, infos: seq<ImageInfo>)
    ensures MessageContent(prompt, infos)[0].text == prompt
    ensures var read := ImagePayloads(MessageContent(prompt, infos));
      forall i :: 0 <= i < |infos| ==> read[i + 1] == Some(infos[i].base64Image)
  {
    var parts := MessageContent(prompt, infos);
    forall i | 0 <= i < |infos|
      ensures ImagePayloads(parts)[i + 1] == Some(infos[i].base64Image)
    {
      var url := DataUrl(infos[i].base64Image);
      assert url[..|DataUrlPrefix|] == DataUrlPrefix;
      assert url[|DataUrlPrefix|..] == infos[i].base64Image;
    }
  }
}
