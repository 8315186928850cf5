/** Pieces the three diary-prompt scripts share: the Korean weekday names and
    the date line built from them, the "keep the input unless it is empty"
    defaulting of text fields, the photo-information header, and the sixth
    guideline that quotes the requested mood. */
module DiaryCommon {
  import opened PyStrings

  /** Weekday names indexed as `date.weekday()` counts: 0 is Monday. */
  const Weekdays: seq<string> := ["월요일", "화요일", "수요일", "목요일", "금요일", "토요일", "일요일"]

  /** `f"{year}년 {month}월 {day}일, {weekday[w]}"`; the date is a parameter
      where the scripts read the clock. */
  function FormattedDate(year: nat, month: nat, day: nat, w: nat): (s: string)
    requires w < 7
    ensures |NatToString(year)| < |s| && s[..|NatToString(year)|] == NatToString(year)
    ensures |Weekdays[w]| <= |s| && s[|s| - |Weekdays[w]|..] == Weekdays[w]
  {
    NatToString(year) + "년 " + NatToString(month) + "월 " + NatToString(day) + "일, " + Weekdays[w]
  }

  /** The seven weekday names are pairwise distinct: each starts with its own
      syllable. */
  lemma WeekdayNamesDistinct(a: nat, b: nat)
    requires a < 7 && b < 7
    requires Weekdays[a] == Weekdays[b]
    ensures a == b
  {
    assert Weekdays[a][0] == Weekdays[b][0];
  }

  lemma FormattedDateSplit(year: nat, month: nat, day: nat, w: nat)
    requires w < 7
    ensures FormattedDate(year, month, day, w)
         == NatToString(year) + ['년'] + ([' '] + (NatToString(month) + ['월'] + ([' '] + (NatToString(day) + ['일'] + (", " + Weekdays[w])))))
  {
    DateParts(NatToString(year), NatToString(month), NatToString(day), Weekdays[w]);
  }

  /** The date line regrouped from the right, piece by piece. */
  lemma DateParts(y: string, m: string, d: string, wk: string)
    ensures y + "년 " + m + "월 " + d + "일, " + wk
         == y + ['년'] + ([' '] + (m + ['월'] + ([' '] + (d + ['일'] + (", " + wk)))))
  {
    var t := d + ['일'] + (", " + wk);
    assert d + "일, " + wk == t;
    var u := m + ['월'] + ([' '] + t);
    assert m + "월 " + t == u;
    assert y + "년 " + u == y + ['년'] + ([' '] + u);
  }

  /** Different dates give different date lines: the year, month, day and
      weekday can be read back. */
  lemma FormattedDateInjective(y1: nat, m1: nat, d1: nat, w1: nat, y2: nat, m2: nat, d2: nat, w2: nat)
    requires w1 < 7 && w2 < 7
    requires FormattedDate(y1, m1, d1, w1) == FormattedDate(y2, m2, d2, w2)
    ensures y1 == y2 && m1 == m2 && d1 == d2 && w1 == w2
  {
    FormattedDateSplit(y1, m1, d1, w1);
    FormattedDateSplit(y2, m2, d2, w2);
    var t1 := NatToString(d1) + ['일'] + (", " + Weekdays[w1]);
    var t2 := NatToString(d2) + ['일'] + (", " + Weekdays[w2]);
    var u1 := NatToString(m1) + ['월'] + ([' '] + t1);
    var u2 := NatToString(m2) + ['월'] + ([' '] + t2);
    DigitRunPrefix(NatToString(y1), '년', [' '] + u1, NatToString(y2), '년', [' '] + u2);
    NatToStringInjective(y1, y2);
    assert u1 == ([' '] + u1)[1..] == ([' '] + u2)[1..] == u2;
    DigitRunPrefix(NatToString(m1), '월', [' '] + t1, NatToString(m2), '월', [' '] + t2);
    NatToStringInjective(m1, m2);
    assert t1 == ([' '] + t1)[1..] == ([' '] + t2)[1..] == t2;
    DigitRunPrefix(NatToString(d1), '일', ", " + Weekdays[w1], NatToString(d2), '일', ", " + Weekdays[w2]);
    NatToStringInjective(d1, d2);
    assert Weekdays[w1] == (", " + Weekdays[w1])[2..] == (", " + Weekdays[w2])[2..] == Weekdays[w2];
    WeekdayNamesDistinct(w1, w2);
  }

  /** `value if value else fallback`: only the empty string falls back;
      whitespace is kept as typed. */
  function Default(value: string, fallback: string): (r: string)
    ensures r == fallback || r == value
    ensures r == fallback <==> value == [] || value == fallback
  {
    if value != [] then value else fallback
  }

  /** The location used when the field is left empty ("somewhere"), in
      both pages that ask for one. */
  const SomewhereLocation: string := "어딘가"

  /** The header above the photo blocks. */
  const PhotoInfoHeader: string := "**입력된 사진 정보** (순서대로 작성해주세요):\n"

  /** The sixth guideline, quoting the mood exactly as typed. */
  function MoodGuideline(mood: string): string {
    "\n6. **입력 받은 분위기에 맞게 일기를 작성**해주세요. 입력 받은 분위기: \"" + mood + "\""
  }

  predicate EndsWith(s: string, suffix: string) {
    |suffix| <= |s| && s[|s| - |suffix|..] == suffix
  }

  /** The guidelines as sent: the base list, then the mood guideline when
      `mood.strip()` is non-empty. */
  function Guidelines(base: string, mood: string): (g: string)
    ensures |base| <= |g| && g[..|base|] == base
  {
    if Strip(mood) != [] then base + MoodGuideline(mood) else base
  }

  /** A prompt that closes with the guidelines ends with the quoted,
      unstripped mood exactly when the mood holds a non-whitespace character;
      otherwise the guidelines are the base list unchanged. Every base list
      ends with a period, which no mood guideline does. */
  lemma GuidelinesMoodIff(prefix: string, base: string, mood: string)
    requires base != [] && base[|base| - 1] == '.'
    ensures EndsWith(prefix + Guidelines(base, mood), MoodGuideline(mood)) <==> !AllSpace(mood)
    ensures AllSpace(mood) <==> Guidelines(base, mood) == base
  {
    var line := MoodGuideline(mood);
    var s := prefix + Guidelines(base, mood);
    assert line[|line| - 1] == '"';
    if !AllSpace(mood) {
      assert s == (prefix + base) + line;
      assert s[|s| - |line|..] == line;
    } else {
      assert s[|s| - 1] == '.';
    }
  }
}
