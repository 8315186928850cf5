# Photo-diary scripts: keyword-file evaluation and diary-prompt assembly

This project models the deterministic core of a small photo-diary project:

- **The `keyword.txt` reader.** Each line of the file reads `IMAGE : CAPTION / KEYWORD / LABEL`. The reader turns the file into four lists: image names, captions, keywords, and O/X labels. It appears once in `bert_score_eval.py` and once inline in `quan_eval_html_generator.py`.
- **The statistics built on that reader:**
  - the plain averages of the precision, recall and F1 lists;
  - the F1 mean of the rows labelled "O" and of the rows labelled "X";
  - the O/X counts and the "O" percentage;
  - the `zip`-truncated table rows of the HTML page.
- **The diary prompt of the three Streamlit pages** (`blip_streamlit.py`, `gpt_cap.py`, `blip_streamlit_gpt_image.py`). Each page fills defaults for empty fields and writes one block per photo in upload order. It adds a sixth guideline quoting the mood exactly when `mood.strip()` is non-empty. The image page also builds the chat message: one text part, then one JPEG data-URL part per photo.

Python's `str.strip`, `str.split` and `str(n)` are modelled in `PyStrings`. `split` cuts at the leftmost non-overlapping occurrence each time. `strip` removes Python's `isspace` characters. Strings are `seq<char>`, and scores and percentages are exact `real`s.

Modules:

| module | file | models |
|---|---|---|
| `Wrappers` | wrappers.dfy | `Option`, `Result` |
| `PyStrings` | py_strings.dfy | `strip`, `split`, `join`, `str(n)` |
| `Seqs` | seqs.dfy | filter, `list.count`, map, concatenation, sum |
| `KeywordFile` | keyword_file.dfy | the line reader, as written and as intended |
| `EvalErrors` | eval_errors.dfy | the errors the two evaluation scripts end with |
| `BertScoreEval` | bert_score_eval.dfy | averages, label-conditioned means, the DataFrame length check |
| `QuanEvalHtml` | quan_eval_html.dfy | counts, percentages, table rows |
| `DiaryCommon` | diary_common.dfy | date line, field defaults, mood guideline |
| `BlipStreamlit` | blip_streamlit.dfy | the captioned diary page |
| `GptCap` | gpt_cap.dfy | the captions-only diary page |
| `BlipStreamlitGptImage` | blip_streamlit_gpt_image.dfy | the page that sends the photos themselves |

### Where the reader and its consumers disagree

The reader does not drop a malformed line from every list together. It appends the image name as soon as the `" : "` split gives two parts (`code/bert_score_eval.py:16`). The three-way `" / "` check comes only afterwards (line 18). So a line that passes the first split and fails the second adds an image name and nothing else.

Both consumers of the four lists pair them by index:

- the DataFrame at `code/bert_score_eval.py:65-73` puts the i-th image name in the same row as the i-th caption and score;
- the `zip` at `code/quan_eval_html_generator.py:102` puts the i-th image in the same table row as the i-th caption, keyword and label.

Index alignment is therefore the evident intent. This model keeps the reader as written, `KeywordFile.Parse`, and proves the aligned reader separately as `KeywordFile.ParseAligned`; see Findings.

Empty inputs end in errors, not in preconditions:

- An empty plain average is a `Failure(DivisionByZero)`: `sum([]) / len([])` raises `ZeroDivisionError` in Python.
- An empty label group is `None`: pandas gives NaN for the mean of an empty boolean-mask selection.

## Model

| member | source | states |
|---|---|---|
| PyStrings.Strip | code/bert_score_eval.py:14 | `line.strip()` is a slice of the line with only whitespace removed at both ends; it is empty exactly when the line is all whitespace, and it starts and ends with a non-whitespace character |
| PyStrings.StripSurrounded | code/bert_score_eval.py:14 | stripping a trimmed text surrounded by whitespace gives the text back, e.g. a line plus its newline |
| PyStrings.Split | code/bert_score_eval.py:14 | `split(sep)` gives parts that join back to the input, none containing the separator; there is one part exactly when the separator does not occur |
| PyStrings.SplitJoin | code/bert_score_eval.py:17 | splitting undoes joining when no separator occurs inside or straddles a field |
| PyStrings.SplitCleanParts | code/bert_score_eval.py:14 | every part but the last is followed by the leftmost remaining separator, so no separator is found before a part's end; with `SplitJoin` this makes `split` the one list of such parts that joins back to the input |
| PyStrings.SplitAtLeast | code/bert_score_eval.py:14-15 | any k non-overlapping occurrences of the separator give at least k+1 parts |
| PyStrings.NatToString | code/blip_streamlit.py:100 | `str(n)` is a non-empty run of digits without a leading zero whose decimal value is n |
| KeywordFile.ClassifyLine | code/bert_score_eval.py:14-21 | one loop pass: a kept line's image name followed by " : " starts the stripped line, and no " : " is found earlier, so the image is the text before the first " : "; a full entry's stripped line is exactly image " : " caption " / " keyword " / " label, no " / " is found before the end of the caption or of the keyword, and no field holds " / " |
| KeywordFile.ImageBeforeFirstColon | code/bert_score_eval.py:14-16 | the image name of a kept line ends exactly at the first " : " of the stripped line |
| KeywordFile.ClassifyFormattedLine | code/bert_score_eval.py:14-21 | a line written in the file's format, plus any trailing newline or blanks, is read back to its four fields |
| KeywordFile.WrongColonCountRejected | code/bert_score_eval.py:14-15 | a blank line, a line without " : ", or a line with two or more non-overlapping " : " contributes to none of the four lists |
| KeywordFile.OverlappingColonsPassFirstSplit | code/bert_score_eval.py:14-16 | overlapping separators count once: "a : : b" passes the two-part check and keeps image "a" |
| KeywordFile.ExtraSlashDropsRecord | code/bert_score_eval.py:17-18 | a caption, keyword or label holding " / " makes the inner split exceed three parts, so the line's caption, keyword and label are dropped while its image name is kept |
| KeywordFile.Collect | code/bert_score_eval.py:15-21 | the three inner lists have equal length, and the image list is longer by the number of lines that pass only the first split |
| KeywordFile.LoadCaptionsAndKeywords | code/bert_score_eval.py:5-23 | the loop returns exactly the four lists of the line-by-line reading, with equal inner lengths no longer than the image list |
| KeywordFile.ParseLengths | code/bert_score_eval.py:17-21 | captions, keywords and labels always have equal length, and the image names exceed them by exactly the name-only lines |
| KeywordFile.ImagesOutnumberCaptions | code/bert_score_eval.py:15-18 | there are at least as many image names as captions, with equality exactly when no line passes the " : " split while failing the " / " split |
| KeywordFile.CollectOrder | code/bert_score_eval.py:12-21 | the i-th image name comes from the i-th line passing the first split; the i-th caption, keyword and label come together from the i-th line passing both |
| KeywordFile.CollectAppend | code/bert_score_eval.py:13 | reading a file is reading its first lines and then the rest, with the lists concatenated |
| KeywordFile.RejectedLineContributesNothing | code/bert_score_eval.py:15 | deleting a rejected line from anywhere in the file leaves all four lists unchanged |
| KeywordFile.ReadLine | code/bert_score_eval.py:14-21 | the nested `if` body of the loop adds to the lists exactly what the line's classification says |
| KeywordFile.MisalignmentExample | code/bert_score_eval.py:15-18 | as written, the file "x.jpg : no fields" then "y.jpg : a dog / dog / O" yields images [x.jpg, y.jpg] beside the single caption "a dog" |
| KeywordFile.CollectAligned | code/bert_score_eval.py:15-21 | the corrected reader: all four lists have equal length and the i-th of each comes from the i-th complete line |
| KeywordFile.CollectAlignedAgrees | code/bert_score_eval.py:15-21 | on a file without name-only lines the code as written and the corrected reader give the same lists |
| BertScoreEval.Average | code/bert_score_eval.py:76-78 | `sum/len` fails with division by zero exactly on an empty list; otherwise the average times the length is the sum |
| BertScoreEval.AverageBounded | code/bert_score_eval.py:76-78 | the average of scores within [lo, hi] lies within [lo, hi] |
| BertScoreEval.Where | code/bert_score_eval.py:86-87 | the boolean-mask selection is empty exactly when no label is kept |
| BertScoreEval.WhereCountsMark | code/bert_score_eval.py:86-87 | the "O" group has as many rows as there are labels exactly "O", and likewise for "X" |
| BertScoreEval.WherePartition | code/bert_score_eval.py:86-87 | every row is in exactly one of the "O" group, the "X" group and the group of all other labels, so sizes and sums add up to the column |
| BertScoreEval.LabelMean | code/bert_score_eval.py:86-87 | a group mean is missing (NaN) exactly when no label matches; otherwise it times the group size is the group's sum |
| BertScoreEval.GroupMeansRecoverTotal | code/bert_score_eval.py:86-87 | when every label is "O" or "X", the two group means weighted by group size give back the F1 total |
| BertScoreEval.Summarize | code/bert_score_eval.py:65-87 | unequal column lengths fail at the DataFrame; with equal columns the summary succeeds exactly when there is at least one row |
| BertScoreEval.Evaluate | code/bert_score_eval.py:12 | the script fails with file-not-found exactly when `keyword.txt` is missing |
| BertScoreEval.EvaluateSucceedsIff | code/bert_score_eval.py:15-21 | with one score per caption, the script completes exactly when no line is name-only and at least one line is complete |
| BertScoreEval.MisalignedLineAbortsEvaluation | code/bert_score_eval.py:65-73 | one name-only line makes the DataFrame constructor fail on unequal columns |
| BertScoreEval.SummaryBounded | code/bert_score_eval.py:76-87 | scores in [0, 1] keep all averages and both group means in [0, 1] |
| BertScoreEval.WhereBounded | code/bert_score_eval.py:86-87 | a selection, and its mean when present, stays within the column's [0, 1] bounds |
| BertScoreEval.ThreeRowExample | code/bert_score_eval.py:76-87 | labels O, O, X with F1 0.8, 0.6, 0.2 give an "O" mean of 0.7, an "X" mean of 0.2 and an average of 1.6/3 |
| QuanEvalHtml.ComputeStats | code/quan_eval_html_generator.py:53-56 | fails with division by zero exactly when no image name was read; the total counts image names, not labels, and the counts are the number of "O" and "X" labels |
| QuanEvalHtml.Percent | code/quan_eval_html_generator.py:56 | the percentage times the total is a hundred times the count |
| QuanEvalHtml.ShownNotSimilarPercentIff | code/quan_eval_html_generator.py:88-90 | the printed "X" percentage, `100 - similar_percent`, equals the "X" count over the total exactly when the "O" and "X" counts make up the whole total |
| QuanEvalHtml.CountsBounded | code/quan_eval_html_generator.py:53-55 | O + X ≤ number of labels ≤ `total_images`, and the total exceeds the labels by the name-only lines |
| QuanEvalHtml.PercentWithin | code/quan_eval_html_generator.py:56 | with no more labels than image names, the "O" percentage lies in [0, 100] |
| QuanEvalHtml.Zip4 | code/quan_eval_html_generator.py:102 | `zip` stops at the shortest list and pairs the four lists index-wise |
| QuanEvalHtml.TableRows | code/quan_eval_html_generator.py:102-104 | every row is a zipped tuple whose image file exists, and every zipped tuple whose image exists is a row |
| QuanEvalHtml.EmitRows | code/quan_eval_html_generator.py:102-112 | the row loop emits exactly the zipped tuples whose image exists, in order |
| QuanEvalHtml.RowsBounded | code/quan_eval_html_generator.py:102-104 | there are at most min(image names, captions) rows, and each row pairs the four lists at one index |
| QuanEvalHtml.AllImagesShown | code/quan_eval_html_generator.py:102-112 | when every image exists, there is one row per caption |
| Seqs.FilterAll | code/quan_eval_html_generator.py:103-104 | when every row's image exists, filtering keeps all rows |
| QuanEvalHtml.QuanEval | code/quan_eval_html_generator.py:31-56 | a missing `keyword.txt` fails before any parsing; otherwise the script fails exactly when no image name was read |
| QuanEvalHtml.MisalignedTableExample | code/quan_eval_html_generator.py:43-56 | the file "x.jpg : no fields" then "y.jpg : a dog / dog / O" yields the row (x.jpg, a dog, dog, O), an "O" percentage of 50, and a printed "X" percentage of 50 although no label is "X" |
| QuanEvalHtml.AlignedTableExample | code/quan_eval_html_generator.py:43-50 | the corrected reader gives the same file the row (y.jpg, a dog, dog, O) |
| DiaryCommon.FormattedDate | code/blip_streamlit.py:14-15 | the date line starts with the year's digits and ends with the weekday name |
| DiaryCommon.WeekdayNamesDistinct | code/blip_streamlit.py:14 | the seven weekday names are pairwise different |
| DiaryCommon.FormattedDateInjective | code/blip_streamlit.py:14-15 | different dates or weekdays give different date lines |
| DiaryCommon.Default | code/blip_streamlit.py:77-79 | `x if x else fb` gives the fallback exactly when the field is empty (or already equals it); whitespace-only fields are kept |
| DiaryCommon.Guidelines | code/blip_streamlit.py:111-114 | the guidelines always begin with the base list |
| DiaryCommon.GuidelinesMoodIff | code/blip_streamlit.py:111-114 | the prompt ends with the quoted, unstripped mood guideline exactly when the mood holds a non-whitespace character; otherwise the guidelines are the base list |
| BlipStreamlit.MakeCaptionInfo | code/blip_streamlit.py:63-80 | the record holds the stripped caption; an empty location becomes "어딘가", and person and keywords are kept as typed |
| BlipStreamlit.PhotoBlocks | code/blip_streamlit.py:99-101 | one block per photo, the i-th numbered i+1 and carrying that photo's caption, location, person and keywords |
| BlipStreamlit.BuildDiaryPrompt | code/blip_streamlit.py:92-114 | the script's `+=` sequence builds the preamble, the date line, the header, the blocks in order, and the guidelines |
| BlipStreamlit.AppendBlock | code/blip_streamlit.py:100-101 | one loop pass appends exactly that photo's numbered block |
| BlipStreamlit.PromptLayout | code/blip_streamlit.py:92-101 | the prompt opens with the preamble, date line and header, and block i sits right after the blocks before it |
| BlipStreamlit.PromptMoodIff | code/blip_streamlit.py:111-114 | guideline 6 ends the prompt exactly when `mood.strip()` is non-empty; otherwise the prompt ends with the base guidelines |
| BlipStreamlit.BlockNumbersDistinct | code/blip_streamlit.py:100 | two blocks with the same text carry the same photo number |
| BlipStreamlit.PromptIgnoresImageNames | code/blip_streamlit.py:99-101 | file names do not reach the prompt |
| BlipStreamlit.UploadBlock | code/blip_streamlit.py:74-80 | block i of the prompt from the uploads carries upload i's stripped caption and typed fields, with "어딘가" for an empty location |
| BlipStreamlit.PromptDateLine | code/blip_streamlit.py:13-15 | the prompt from the uploads has, right after the preamble, the line naming the day as `formatted_date` writes it from the year, month, day and weekday |
| BlipStreamlit.DateLineInjective | code/blip_streamlit.py:15 | two date lines are equal only for the same year, month, day and weekday |
| GptCap.MakeCaptionRecord | code/gpt_cap.py:70-79 | the record holds the file name and the stripped caption, nothing defaulted |
| GptCap.CaptionBlocks | code/gpt_cap.py:97-99 | one block "사진 i" plus the caption line per photo, numbered from 1 in upload order |
| GptCap.BuildDiaryPrompt | code/gpt_cap.py:91-112 | the script's `+=` sequence builds the preamble, the header, the caption blocks in order, and the guidelines |
| GptCap.AppendBlock | code/gpt_cap.py:98-99 | one loop pass appends exactly that photo's block |
| GptCap.PromptLayout | code/gpt_cap.py:91-99 | the prompt opens with the preamble and header, and block i sits right after the blocks before it |
| GptCap.PromptMoodIff | code/gpt_cap.py:109-112 | guideline 6 ends the prompt exactly when `mood.strip()` is non-empty |
| GptCap.PromptDependsOnlyOnCaptions | code/gpt_cap.py:91-112 | records with the same captions in the same order give the same prompt; no date enters it |
| BlipStreamlitGptImage.MakeImageInfo | code/blip_streamlit_gpt_image.py:54-60 | an empty person becomes "친구들", an empty location "어딘가"; keywords, name and encoding are kept |
| BlipStreamlitGptImage.BuildDiaryPrompt | code/blip_streamlit_gpt_image.py:70-94 | the script's `+=` sequence builds the preamble, the header, one unnumbered block per photo in order, and the guidelines |
| BlipStreamlitGptImage.PromptLayout | code/blip_streamlit_gpt_image.py:74-82 | block i, giving file name, location, person and keywords, sits right after the blocks before it |
| BlipStreamlitGptImage.PromptMoodIff | code/blip_streamlit_gpt_image.py:91-94 | guideline 6 ends the prompt exactly when `mood.strip()` is non-empty |
| BlipStreamlitGptImage.PromptIgnoresEncodings | code/blip_streamlit_gpt_image.py:76-82 | the base64 text does not reach the prompt |
| BlipStreamlitGptImage.MessageContent | code/blip_streamlit_gpt_image.py:97-108 | the message has n+1 parts: the prompt text, then one JPEG data URL per photo in record order |
| BlipStreamlitGptImage.BuildMessageContent | code/blip_streamlit_gpt_image.py:97-108 | the append loop builds exactly that message |
| BlipStreamlitGptImage.MessageRoundTrip | code/blip_streamlit_gpt_image.py:97-108 | reading the message back recovers the prompt and every photo's base64 text, in upload order, whatever the uploaded file's type |

## Left out

- The models and remote calls are parameters or inputs:
  - BLIP-2 loading and captioning: the decoded caption is an input field.
  - The OpenAI chat calls: the reply is not modelled.
  - `BERTScorer`: the scorer is a function parameter returning the three score lists. An exception it raises is not modelled.
- Base64 encoding (`encode_uploaded_file`) is an input field, `base64Image`, and is not computed.
- The Streamlit layout, widgets and spinners, `dotenv` and the API key are not program logic.
- File I/O:
  - `keyword.txt` is an `Option` of its lines, with `None` for a missing file.
  - `img_path.exists()` is a predicate parameter `present`.
  - `open`'s own failure inside `bert_score_eval.py` is the same `FileNotFound` outcome.
- The HTML and CSS markup, writing the HTML and CSV files, `mkdir` and the console printing are output only. A table row is its four cells, and the report is its statistics and rows.
- `.1f` and `.4f` number formatting is left out; scores and percentages are exact reals rather than floats.
- `datetime.date.today()` is replaced by the year, month, day and weekday index as parameters of `BlipStreamlit.PromptFromUploads`. The calendar itself, which day of the week a date falls on, is not modelled: the weekday index is an independent parameter. `BlipStreamlit.DiaryPrompt` takes the finished date line as a string.
- The command line and driver scripts are not modelled: argparse `--base_dir`, `run_eval.py` and `main.py`. `run_eval.py:25` passes a `--data_dir` that `bert_score_eval.py` never reads; that script uses the fixed directory at line 54.
- PyStrings.Split: requires a non-empty separator. Python raises ValueError for an empty one, but the scripts only split on " : " and " / ".
- BertScoreEval.Summarize: the scorer on empty caption lists is not modelled. An empty corpus ends in `DivisionByZero` at the averages, as `sum/len` would.
- The `o_scores`/`x_scores` NaN values are `None` rather than a float NaN.

## Findings

| source | as written | input that shows it | evidently intended | confidence | as-written member | corrected member |
|---|---|---|---|---|---|---|
| code/bert_score_eval.py:15-21 (and code/quan_eval_html_generator.py:44-50) | the image name is appended at the two-part check, before the three-part check, so a line with " : " but without three " / " fields adds an image name and nothing else | the lines "x.jpg : no fields" and "y.jpg : a dog / dog / O": the images are [x.jpg, y.jpg] and the captions ["a dog"], so "x.jpg" is paired with "a dog". The HTML page shows that row and prints 50% for both "O" and "X", and the evaluation script fails at the DataFrame | a line contributes to all four lists or to none, keeping them aligned by index | not executed | KeywordFile.MisalignmentExample | KeywordFile.CollectAligned |

The HTML consequences of this finding are `QuanEvalHtml.MisalignedTableExample` (as written) and `QuanEvalHtml.AlignedTableExample` (corrected). The evaluation consequence is `BertScoreEval.MisalignedLineAbortsEvaluation`. The rest of the model keeps `KeywordFile.Parse`, because both scripts behave that way. `KeywordFile.CollectAlignedAgrees` proves the two readers agree on every file without name-only lines.
