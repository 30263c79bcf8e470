/**
  The video filter and ranking pipeline of the chemical-engineering search page:
  every fetched search result is checked against a duration window, classified by
  language and university keywords, scored, and kept; the kept videos are then sorted
  by score (highest first, ties in search order) and the first `maxResults` are shown.
  The network fetch is abstracted: each search result arrives as a `Fetch`, which is
  either the video's metadata or the failure raised while reading it.
*/
module VideoSearch {
  import opened Wrappers

  /** The metadata read from one video page. */
  datatype VideoMeta = VideoMeta(
    url: string,
    length: int,                  // seconds
    title: string,
    description: Option<string>,  // the page may have none
    thumbnail: string)

  /** One search result: its metadata, or an exception raised while reading it. */
  datatype Fetch = Fetched(meta: VideoMeta) | FetchRaised

  datatype Language = Arabic | English | Hindi | Other

  /** One kept video, as appended to the result list. */
  datatype Entry = Entry(
    title: string,
    url: string,
    duration: string,   // "m:ss"
    language: Language,
    egyptian: bool,
    score: int,
    thumbnail: string)

  const ArabicWords: seq<string> := ["عرب", "arabic", "بالعربي", "شرح"]
  const EnglishWords: seq<string> := ["eng", "english", "lecture", "course"]
  const HindiWords: seq<string> := ["hindi", "हिंदी"]
  const UniversityWords: seq<string> := ["cairo", "جامعة القاهرة", "عين شمس", "alexandria", "الإسكندرية"]

  /** The highest score a video can get: 3 for Arabic plus 2 for a university. */
  const MaxScore: nat := 5

  function Min(a: int, b: int): int { if a <= b then a else b }

  // ---------------------------------------------------------------- text

  function LowerChar(c: char): char {
    if 'A' <= c <= 'Z' then (c as int + 32) as char else c
  }

  /** Lower-casing, for the letters A to Z. */
  function Lower(s: string): (r: string)
    ensures |r| == |s|
    ensures forall i :: 0 <= i < |s| ==> r[i] == LowerChar(s[i])
  {
    if |s| == 0 then "" else [LowerChar(s[0])] + Lower(s[1..])
  }

  /** `word` occurs in `text` starting at position i. */
  predicate OccursAt(text: string, word: string, i: int) {
    0 <= i && i + |word| <= |text| && text[i..i + |word|] == word
  }

  /** `word` occurs in `text` at some position. */
  ghost predicate Occurs(text: string, word: string) {
    exists i :: OccursAt(text, word, i)
  }

  /** Python's `word in text`: a substring test, scanning from the left. */
  function Contains(text: string, word: string): bool
    decreases |text|
  {
    if |word| > |text| then false
    else if text[..|word|] == word then true
    else Contains(text[1..], word)
  }

  /** Contains finds `word` exactly when it occurs somewhere in `text`. */
  lemma {:induction false} ContainsOccurs(text: string, word: string)
    ensures Contains(text, word) <==> Occurs(text, word)
    decreases |text|
  {
    if |word| > |text| {
      assert forall i :: !OccursAt(text, word, i);
    } else if text[..|word|] == word {
      assert OccursAt(text, word, 0);
    } else {
      ContainsOccurs(text[1..], word);
      if Contains(text[1..], word) {
        var i :| OccursAt(text[1..], word, i);
        SliceOfTail(text, i, |word|);
        assert OccursAt(text, word, i + 1);
      }
      if Occurs(text, word) {
        var i :| OccursAt(text, word, i);
        assert i != 0;
        SliceOfTail(text, i - 1, |word|);
        assert OccursAt(text[1..], word, i - 1);
      }
    }
  }

  lemma SliceOfTail(text: string, i: int, n: int)
    requires 0 <= i && 0 <= n && i + n < |text|
    ensures text[1..][i..i + n] == text[i + 1..i + 1 + n]
  {
    var u, v := text[1..][i..i + n], text[i + 1..i + 1 + n];
    assert forall j :: 0 <= j < n ==> u[j] == v[j];
  }

  /** Python's `any(word in text for word in words)`. */
  function MentionsAny(text: string, words: seq<string>): bool {
    if |words| == 0 then false else Contains(text, words[0]) || MentionsAny(text, words[1..])
  }

  /** MentionsAny holds exactly when one of the words occurs in the text. */
  lemma {:induction false} MentionsAnyOccurs(text: string, words: seq<string>)
    ensures MentionsAny(text, words) <==> exists j :: 0 <= j < |words| && Occurs(text, words[j])
  {
    if |words| > 0 {
      ContainsOccurs(text, words[0]);
      MentionsAnyOccurs(text, words[1..]);
      assert forall j :: 1 <= j < |words| ==> words[j] == words[1..][j - 1];
      if exists j :: 0 <= j < |words| && Occurs(text, words[j]) {
        var j :| 0 <= j < |words| && Occurs(text, words[j]);
        if j > 0 {
          assert Occurs(text, words[1..][j - 1]);
        }
      }
    }
  }

  // ---------------------------------------------------------------- one video

  /** The lower-cased title followed directly by the lower-cased description ("" when absent). */
  function SearchText(meta: VideoMeta): string {
    Lower(meta.title) + (if meta.description.Some? then Lower(meta.description.value) else "")
  }

  /** Language by keyword: Arabic first, then English, then Hindi, else other. */
  function Classify(text: string): Language {
    if MentionsAny(text, ArabicWords) then Arabic
    else if MentionsAny(text, EnglishWords) then English
    else if MentionsAny(text, HindiWords) then Hindi
    else Other
  }

  /** The first keyword list with a word occurring in the text decides the language. */
  lemma {:induction false} ClassifyPrecedence(text: string)
    ensures var r := Classify(text);
      (r == Arabic <==> exists j :: 0 <= j < |ArabicWords| && Occurs(text, ArabicWords[j])) &&
      (r == English <==>
        (forall j :: 0 <= j < |ArabicWords| ==> !Occurs(text, ArabicWords[j])) &&
        (exists j :: 0 <= j < |EnglishWords| && Occurs(text, EnglishWords[j]))) &&
      (r == Hindi <==>
        (forall j :: 0 <= j < |ArabicWords| ==> !Occurs(text, ArabicWords[j])) &&
        (forall j :: 0 <= j < |EnglishWords| ==> !Occurs(text, EnglishWords[j])) &&
        (exists j :: 0 <= j < |HindiWords| && Occurs(text, HindiWords[j])))
  {
    MentionsAnyOccurs(text, ArabicWords);
    MentionsAnyOccurs(text, EnglishWords);
    MentionsAnyOccurs(text, HindiWords);
  }

  function LanguagePoints(language: Language): int {
    match language
    case Arabic => 3
    case English => 2
    case Hindi => 1
    case Other => 0
  }

  /** Whether a video lasting `length` seconds lies in the window of `shortest` to `longest` seconds, both ends included. */
  predicate InWindow(length: int, shortest: int, longest: int) {
    shortest <= length <= longest
  }

  /** The entry a video is kept as: its language, university flag and score. */
  function Assess(meta: VideoMeta): Entry {
    var text := SearchText(meta);
    var language := Classify(text);
    var egyptian := MentionsAny(text, UniversityWords);
    Entry(meta.title, meta.url, FormatDuration(meta.length), language, egyptian,
          LanguagePoints(language) + (if egyptian then 2 else 0), meta.thumbnail)
  }

  /** The score lies in 0..5; 5 exactly for an Arabic video from a listed university, 0 exactly for an unclassified one from none. */
  lemma {:induction false} ScoreBounds(meta: VideoMeta)
    ensures var e := Assess(meta);
      0 <= e.score <= MaxScore &&
      (e.score == MaxScore <==> e.language == Arabic && e.egyptian) &&
      (e.score == 0 <==> e.language == Other && !e.egyptian) &&
      (e.egyptian <==> exists j :: 0 <= j < |UniversityWords| && Occurs(SearchText(meta), UniversityWords[j]))
  {
    MentionsAnyOccurs(SearchText(meta), UniversityWords);
  }

  /** A text naming both an Arabic and an English keyword is classified Arabic. */
  lemma {:induction false} ArabicTakesPrecedence(text: string, a: nat, b: nat)
    requires a < |ArabicWords| && b < |EnglishWords|
    requires Occurs(text, ArabicWords[a]) && Occurs(text, EnglishWords[b])
    ensures Classify(text) == Arabic
  {
    ClassifyPrecedence(text);
  }

  // ---------------------------------------------------------------- durations

  function Digit(d: nat): char
    requires d < 10
  {
    "0123456789"[d]
  }

  predicate IsDigit(c: char) { '0' <= c <= '9' }

  predicate AllDigits(s: string) { forall i :: 0 <= i < |s| ==> IsDigit(s[i]) }

  /** The decimal numeral of a natural number, as Python's `str` writes it. */
  function Decimal(n: nat): string {
    if n < 10 then [Digit(n)] else Decimal(n / 10) + [Digit(n % 10)]
  }

  /** The numeral of an integer, with a leading minus sign when negative. */
  function IntToString(n: int): string {
    if n < 0 then "-" + Decimal(-n) else Decimal(n)
  }

  /** Python's `{n:02d}` for n >= 0: at least two digits, zero-padded on the left. */
  function Pad2(n: nat): string {
    if n < 10 then "0" + Decimal(n) else Decimal(n)
  }

  /** `m:ss` with m = duration // 60 and ss = duration % 60 (Python's floor division and modulus). */
  function FormatDuration(duration: int): string {
    IntToString(duration / 60) + ":" + Pad2(duration % 60)
  }

  /** The value of a numeral. */
  function DigitsValue(s: string): int {
    if |s| == 0 then 0 else DigitsValue(s[..|s| - 1]) * 10 + (s[|s| - 1] as int - '0' as int)
  }

  /** The numeral of n is a non-empty run of digits whose value is n. */
  lemma {:induction false} DecimalValue(n: nat)
    ensures |Decimal(n)| >= 1 && AllDigits(Decimal(n)) && DigitsValue(Decimal(n)) == n
  {
    if n >= 10 {
      var s := Decimal(n);
      assert s[..|s| - 1] == Decimal(n / 10);
      DecimalValue(n / 10);
    }
  }

  /** A leading zero does not change a numeral's value. */
  lemma {:induction false} LeadingZero(s: string)
    ensures DigitsValue("0" + s) == DigitsValue(s)
  {
    if |s| > 0 {
      assert ("0" + s)[..|s|] == "0" + s[..|s| - 1];
      LeadingZero(s[..|s| - 1]);
    }
  }

  /** The position of the first ':' in `t`, or |t| when there is none. */
  function IndexOfColon(t: string): (i: nat)
    ensures i <= |t|
    ensures i < |t| ==> t[i] == ':'
    ensures forall j :: 0 <= j < i ==> t[j] != ':'
  {
    if |t| == 0 || t[0] == ':' then 0 else 1 + IndexOfColon(t[1..])
  }

  /** Reads an `m:ss` duration string back into its minutes and seconds. */
  function DurationParts(t: string): Option<(int, int)> {
    var i := IndexOfColon(t);
    if i == |t| || !AllDigits(t[..i]) || !AllDigits(t[i + 1..]) then None
    else Some((DigitsValue(t[..i]), DigitsValue(t[i + 1..])))
  }

  /** The duration string of a non-negative duration reads back as minutes and seconds with minutes * 60 + seconds == duration, the seconds in 0..59 written with exactly two digits. */
  lemma {:induction false} DurationRoundTrip(duration: nat)
    ensures var t := FormatDuration(duration);
      var p := DurationParts(t);
      p.Some? && p.value.0 * 60 + p.value.1 == duration && p.value.1 < 60 &&
      |t| == IndexOfColon(t) + 3
  {
    var a, b := Decimal(duration / 60), Pad2(duration % 60);
    var t := FormatDuration(duration);
    DecimalValue(duration / 60);
    DecimalValue(duration % 60);
    if duration % 60 < 10 {
      LeadingZero(Decimal(duration % 60));
      assert |Decimal(duration % 60)| == 1;
      assert AllDigits(b);
    } else {
      assert Decimal(duration % 60) == Decimal(duration % 60 / 10) + [Digit(duration % 60 % 10)];
    }
    assert t == a + ":" + b;
    assert t[|a|] == ':';
    assert forall j :: 0 <= j < |a| ==> t[j] == a[j];
    assert IndexOfColon(t) == |a|;
    assert t[..|a|] == a;
    assert t[|a| + 1..] == b;
  }

  // ---------------------------------------------------------------- the scan

  /** The videos admitted by the scan, in search order: fetched without raising and in the window. */
  function Admitted(fetches: seq<Fetch>, shortest: int, longest: int): seq<VideoMeta> {
    if |fetches| == 0 then []
    else
      var f := fetches[|fetches| - 1];
      Admitted(fetches[..|fetches| - 1], shortest, longest) +
      (if f.Fetched? && InWindow(f.meta.length, shortest, longest) then [f.meta] else [])
  }

  /** f applied to each element, in order. */
  function MapSeq<A, B>(f: A -> B, s: seq<A>): seq<B> {
    if |s| == 0 then [] else MapSeq(f, s[..|s| - 1]) + [f(s[|s| - 1])]
  }

  /** The entries kept from a sequence of fetches, in search order. */
  function Kept(fetches: seq<Fetch>, shortest: int, longest: int): seq<Entry> {
    MapSeq(Assess, Admitted(fetches, shortest, longest))
  }

  /** Scanning two runs of fetches one after the other admits what each admits on its own. */
  lemma {:induction false} AdmittedConcat(a: seq<Fetch>, b: seq<Fetch>, shortest: int, longest: int)
    ensures Admitted(a + b, shortest, longest) == Admitted(a, shortest, longest) + Admitted(b, shortest, longest)
    decreases |b|
  {
    if |b| > 0 {
      assert (a + b)[..|a + b| - 1] == a + b[..|b| - 1];
      AdmittedConcat(a, b[..|b| - 1], shortest, longest);
    } else {
      assert a + b == a;
    }
  }

  /** A video whose metadata access raises is skipped, and the videos before and after it are kept as without it. */
  lemma {:induction false} SkipRaised(a: seq<Fetch>, b: seq<Fetch>, shortest: int, longest: int)
    ensures Kept(a + [FetchRaised] + b, shortest, longest) == Kept(a, shortest, longest) + Kept(b, shortest, longest)
  {
    AdmittedSkip(a, b, shortest, longest);
    MapSeqConcat(Assess, Admitted(a, shortest, longest), Admitted(b, shortest, longest));
  }

  lemma {:induction false} AdmittedSkip(a: seq<Fetch>, b: seq<Fetch>, shortest: int, longest: int)
    ensures Admitted(a + [FetchRaised] + b, shortest, longest) == Admitted(a, shortest, longest) + Admitted(b, shortest, longest)
  {
    AdmittedConcat(a + [FetchRaised], b, shortest, longest);
    assert (a + [FetchRaised])[..|a|] == a;
    assert Admitted(a + [FetchRaised], shortest, longest) == Admitted(a, shortest, longest) + [];
  }

  lemma {:induction false} MapSeqConcat<A, B>(f: A -> B, x: seq<A>, y: seq<A>)
    ensures MapSeq(f, x + y) == MapSeq(f, x) + MapSeq(f, y)
    decreases |y|
  {
    if |y| > 0 {
      assert (x + y)[..|x + y| - 1] == x + y[..|y| - 1];
      MapSeqConcat(f, x, y[..|y| - 1]);
    } else {
      assert x + y == x;
    }
  }

  /** MapSeq keeps the length, and its i-th element is f of the i-th. */
  lemma {:induction false} MapSeqIndex<A, B>(f: A -> B, s: seq<A>)
    ensures |MapSeq(f, s)| == |s|
    ensures forall i :: 0 <= i < |s| ==> MapSeq(f, s)[i] == f(s[i])
  {
    if |s| > 0 {
      MapSeqIndex(f, s[..|s| - 1]);
    }
  }

  /** A video is admitted exactly when it is fetched, without raising, at some position of the scan, with its length in the window. */
  lemma {:induction false} AdmittedExactly(fetches: seq<Fetch>, shortest: int, longest: int, m: VideoMeta)
    ensures m in Admitted(fetches, shortest, longest) <==>
      InWindow(m.length, shortest, longest) && exists j :: 0 <= j < |fetches| && fetches[j] == Fetched(m)
  {
    var n := |fetches|;
    if n > 0 {
      var init := fetches[..n - 1];
      AdmittedExactly(init, shortest, longest, m);
      assert forall j :: 0 <= j < n - 1 ==> init[j] == fetches[j];
      if exists j :: 0 <= j < n && fetches[j] == Fetched(m) {
        var j :| 0 <= j < n && fetches[j] == Fetched(m);
        if j < n - 1 {
          assert init[j] == Fetched(m);
        }
      }
    }
  }

  /** Every kept entry is the assessment of a fetched video, in the duration window, at a position of the scan. */
  lemma {:induction false} KeptFromWindow(fetches: seq<Fetch>, shortest: int, longest: int, e: Entry)
    requires e in Kept(fetches, shortest, longest)
    ensures exists j :: 0 <= j < |fetches| && fetches[j].Fetched? &&
                        InWindow(fetches[j].meta.length, shortest, longest) && e == Assess(fetches[j].meta)
  {
    var metas := Admitted(fetches, shortest, longest);
    MapSeqIndex(Assess, metas);
    var i :| 0 <= i < |metas| && MapSeq(Assess, metas)[i] == e;
    AdmittedExactly(fetches, shortest, longest, metas[i]);
    var j :| 0 <= j < |fetches| && fetches[j] == Fetched(metas[i]);
  }

  /** Every fetched video in the window is kept. */
  lemma {:induction false} WindowKept(fetches: seq<Fetch>, shortest: int, longest: int, j: nat)
    requires j < |fetches| && fetches[j].Fetched? && InWindow(fetches[j].meta.length, shortest, longest)
    ensures Assess(fetches[j].meta) in Kept(fetches, shortest, longest)
  {
    var metas := Admitted(fetches, shortest, longest);
    AdmittedExactly(fetches, shortest, longest, fetches[j].meta);
    var i :| 0 <= i < |metas| && metas[i] == fetches[j].meta;
    MapSeqIndex(Assess, metas);
    assert MapSeq(Assess, metas)[i] == Assess(fetches[j].meta);
  }

  // ---------------------------------------------------------------- the sort

  /** The entries of score k, in their order in s. */
  function WithScore(s: seq<Entry>, k: int): seq<Entry> {
    if |s| == 0 then [] else (if s[0].score == k then [s[0]] else []) + WithScore(s[1..], k)
  }

  /** The entries of score k, then those of score k - 1, and so on down to 0. */
  function ScoreBuckets(s: seq<Entry>, k: nat): seq<Entry> {
    WithScore(s, k) + (if k == 0 then [] else ScoreBuckets(s, k - 1))
  }

  /** The kept list after `sort(key=score, reverse=True)`: by score, highest first, ties in their original order. */
  function SortedByScore(s: seq<Entry>): seq<Entry> {
    ScoreBuckets(s, MaxScore)
  }

  predicate Descending(s: seq<Entry>) {
    forall i, j :: 0 <= i < j < |s| ==> s[i].score >= s[j].score
  }

  predicate ScoresInRange(s: seq<Entry>) {
    forall i :: 0 <= i < |s| ==> 0 <= s[i].score <= MaxScore
  }

  /** Every entry of WithScore(s, k) has score k. */
  lemma {:induction false} WithScoreIsK(s: seq<Entry>, k: int)
    ensures forall i :: 0 <= i < |WithScore(s, k)| ==> WithScore(s, k)[i].score == k
  {
    if |s| > 0 {
      WithScoreIsK(s[1..], k);
    }
  }

  lemma {:induction false} BucketsDescending(s: seq<Entry>, k: nat)
    ensures Descending(ScoreBuckets(s, k)) && InBuckets(ScoreBuckets(s, k), k)
  {
    WithScoreIsK(s, k);
    if k > 0 {
      BucketsDescending(s, k - 1);
      AppendBucket(WithScore(s, k), ScoreBuckets(s, k - 1), k);
    } else {
      AppendBucket(WithScore(s, k), [], k);
    }
  }

  /** A run of score-k entries followed by a descending list of lower scores is descending. */
  lemma AppendBucket(a: seq<Entry>, b: seq<Entry>, k: int)
    requires 0 <= k
    requires forall i :: 0 <= i < |a| ==> a[i].score == k
    requires Descending(b) && InBuckets(b, k - 1)
    ensures Descending(a + b) && InBuckets(a + b, k)
  {
    assert forall i :: 0 <= i < |a + b| ==> (a + b)[i] == if i < |a| then a[i] else b[i - |a|];
  }

  /** The sorted list is in non-increasing order of score. */
  lemma {:induction false} SortedIsDescending(s: seq<Entry>)
    ensures Descending(SortedByScore(s)) && ScoresInRange(SortedByScore(s))
  {
    BucketsDescending(s, MaxScore);
  }

  /** The entries of s whose score lies in 0..k, in order. */
  function AtMost(s: seq<Entry>, k: int): seq<Entry> {
    if |s| == 0 then [] else (if 0 <= s[0].score <= k then [s[0]] else []) + AtMost(s[1..], k)
  }

  lemma {:induction false} AtMostSplit(s: seq<Entry>, k: nat)
    ensures multiset(AtMost(s, k)) == multiset(WithScore(s, k)) + multiset(if k == 0 then [] else AtMost(s, k - 1))
  {
    if |s| > 0 {
      AtMostSplit(s[1..], k);
    }
  }

  lemma {:induction false} BucketsPermute(s: seq<Entry>, k: nat)
    ensures multiset(ScoreBuckets(s, k)) == multiset(AtMost(s, k))
  {
    AtMostSplit(s, k);
    if k > 0 {
      BucketsPermute(s, k - 1);
    }
  }

  lemma {:induction false} AtMostAll(s: seq<Entry>)
    requires ScoresInRange(s)
    ensures AtMost(s, MaxScore) == s
  {
    if |s| > 0 {
      AtMostAll(s[1..]);
    }
  }

  /** Sorting only reorders: the sorted list holds the same entries, each as often. */
  lemma {:induction false} SortedIsPermutation(s: seq<Entry>)
    requires ScoresInRange(s)
    ensures multiset(SortedByScore(s)) == multiset(s)
  {
    BucketsPermute(s, MaxScore);
    AtMostAll(s);
  }

  lemma {:induction false} WithScoreConcat(a: seq<Entry>, b: seq<Entry>, k: int)
    ensures WithScore(a + b, k) == WithScore(a, k) + WithScore(b, k)
  {
    if |a| == 0 {
      assert a + b == b;
    } else {
      var h := if a[0].score == k then [a[0]] else [];
      assert (a + b)[0] == a[0];
      assert (a + b)[1..] == a[1..] + b;
      WithScoreConcat(a[1..], b, k);
      assert WithScore(a + b, k) == h + (WithScore(a[1..], k) + WithScore(b, k));
      assert WithScore(a, k) == h + WithScore(a[1..], k);
    }
  }

  lemma {:induction false} WithScoreTwice(s: seq<Entry>, j: int, k: int)
    ensures WithScore(WithScore(s, j), k) == if j == k then WithScore(s, k) else []
  {
    if |s| > 0 {
      WithScoreConcat(if s[0].score == j then [s[0]] else [], WithScore(s[1..], j), k);
      WithScoreTwice(s[1..], j, k);
    }
  }

  lemma {:induction false} BucketsStable(s: seq<Entry>, n: nat, k: int)
    ensures WithScore(ScoreBuckets(s, n), k) == if 0 <= k <= n then WithScore(s, k) else []
  {
    WithScoreConcat(WithScore(s, n), if n == 0 then [] else ScoreBuckets(s, n - 1), k);
    WithScoreTwice(s, n, k);
    if n > 0 {
      BucketsStable(s, n - 1, k);
    }
  }

  /** The sort is stable: the entries of each score keep their search order. */
  lemma {:induction false} SortedIsStable(s: seq<Entry>, k: int)
    requires 0 <= k <= MaxScore
    ensures WithScore(SortedByScore(s), k) == WithScore(s, k)
  {
    BucketsStable(s, MaxScore, k);
  }

  /** A descending list with scores in 0..n is already in bucket order. */
  lemma {:induction false} DescendingBuckets(t: seq<Entry>, n: nat)
    requires Descending(t) && InBuckets(t, n)
    ensures ScoreBuckets(t, n) == t
    decreases n, |t|
  {
    if |t| == 0 {
      EmptyBuckets(n);
    } else if t[0].score == n {
      DescendingTail(t, n);
      DescendingBuckets(t[1..], n);
      ConsBuckets(t[0], t[1..], n);
      assert [t[0]] + t[1..] == t;
    } else {
      BelowHead(t, n);
      NoneWithScore(t, n);
      DescendingBuckets(t, n - 1);
    }
  }

  /** Every score of t lies in 0..n. */
  predicate InBuckets(t: seq<Entry>, n: int) {
    forall i :: 0 <= i < |t| ==> 0 <= t[i].score <= n
  }

  lemma {:induction false} EmptyBuckets(n: nat)
    ensures ScoreBuckets([], n) == []
  {
    if n > 0 {
      EmptyBuckets(n - 1);
    }
  }

  lemma {:induction false} DescendingTail(t: seq<Entry>, n: int)
    requires |t| > 0 && Descending(t) && InBuckets(t, n)
    ensures Descending(t[1..]) && InBuckets(t[1..], n)
  {
    assert forall i :: 0 <= i < |t[1..]| ==> t[1..][i] == t[i + 1];
  }

  lemma {:induction false} BelowHead(t: seq<Entry>, n: int)
    requires |t| > 0 && Descending(t) && InBuckets(t, n) && t[0].score != n
    ensures n > 0 && InBuckets(t, n - 1)
  {
    assert forall i :: 0 <= i < |t| ==> t[i].score <= t[0].score;
  }

  lemma {:induction false} NoneWithScore(t: seq<Entry>, n: int)
    requires Descending(t)
    requires forall i :: 0 <= i < |t| ==> t[i].score <= n
    requires |t| == 0 || t[0].score != n
    ensures WithScore(t, n) == []
  {
    if |t| > 0 {
      NoneWithScore(t[1..], n);
    }
  }

  lemma {:induction false} ConsWithScore(x: Entry, r: seq<Entry>, k: int)
    ensures WithScore([x] + r, k) == (if x.score == k then [x] else []) + WithScore(r, k)
  {
    assert ([x] + r)[1..] == r;
  }

  /** An entry of score n put in front of a list goes to the front of its buckets from n down. */
  lemma {:induction false} ConsBuckets(x: Entry, r: seq<Entry>, n: nat)
    requires x.score == n
    ensures ScoreBuckets([x] + r, n) == [x] + ScoreBuckets(r, n)
  {
    var t := [x] + r;
    ConsWithScore(x, r, n);
    if n > 0 {
      ShiftBuckets(x, r, n - 1);
      assert ScoreBuckets(t, n) == WithScore(t, n) + ScoreBuckets(t, n - 1);
      assert ScoreBuckets(r, n) == WithScore(r, n) + ScoreBuckets(r, n - 1);
      ConsAssoc(x, WithScore(r, n), ScoreBuckets(r, n - 1), ScoreBuckets(t, n), ScoreBuckets(r, n));
    } else {
      assert ScoreBuckets(t, n) == WithScore(t, n) + [];
      assert ScoreBuckets(r, n) == WithScore(r, n) + [];
    }
  }

  /** Buckets below an entry's score do not see it. */
  lemma {:induction false} ShiftBuckets(x: Entry, r: seq<Entry>, k: nat)
    requires x.score > k
    ensures ScoreBuckets([x] + r, k) == ScoreBuckets(r, k)
  {
    ConsWithScore(x, r, k);
    var t := [x] + r;
    assert WithScore(t, k) == WithScore(r, k);
    if k > 0 {
      ShiftBuckets(x, r, k - 1);
      assert ScoreBuckets(t, k) == WithScore(t, k) + ScoreBuckets(t, k - 1);
    } else {
      assert ScoreBuckets(t, k) == WithScore(t, k) + [];
    }
  }

  lemma {:induction false} ConsAssoc(x: Entry, w: seq<Entry>, b: seq<Entry>, whole: seq<Entry>, tail: seq<Entry>)
    requires whole == ([x] + w) + b && tail == w + b
    ensures whole == [x] + tail
  {
  }

  /**
    SortedByScore is the only stable descending order: a list of the same entries that
    is descending by score and keeps each score's entries in the original order is it.
  */
  lemma {:induction false} SortedIsUnique(s: seq<Entry>, t: seq<Entry>)
    requires ScoresInRange(t) && Descending(t)
    requires forall k :: 0 <= k <= MaxScore ==> WithScore(t, k) == WithScore(s, k)
    ensures t == SortedByScore(s)
  {
    assert InBuckets(t, MaxScore);
    DescendingBuckets(t, MaxScore);
    BucketsAgree(s, t, MaxScore);
  }

  lemma {:induction false} BucketsAgree(s: seq<Entry>, t: seq<Entry>, n: nat)
    requires forall k :: 0 <= k <= n ==> WithScore(t, k) == WithScore(s, k)
    ensures ScoreBuckets(t, n) == ScoreBuckets(s, n)
  {
    if n > 0 {
      BucketsAgree(s, t, n - 1);
    }
  }

  // ---------------------------------------------------------------- the search

  /** What the page reports for a search: of the first 3 * maxResults results, the kept ones, sorted, cut to maxResults. */
  function SearchResult(fetches: seq<Fetch>, maxResults: int, minDuration: int, maxDuration: int): seq<Entry>
    requires maxResults >= 0
  {
    var sorted := SortedByScore(Kept(fetches[..Min(3 * maxResults, |fetches|)], minDuration * 60, maxDuration * 60));
    sorted[..Min(maxResults, |sorted|)]
  }

  /**
    The search loop: examines at most 3 * maxResults results, skips the ones whose
    metadata access raises or whose length is outside the window, scores the rest,
    sorts them by score and keeps the first maxResults.
  */
  method Search(fetches: seq<Fetch>, maxResults: int, minDuration: int, maxDuration: int) returns (results: seq<Entry>)
    requires 5 <= maxResults <= 20 && 1 <= minDuration <= 30 && 10 <= maxDuration <= 120
    ensures results == SearchResult(fetches, maxResults, minDuration, maxDuration)
  {
    var examined := fetches[..Min(3 * maxResults, |fetches|)];
    var filtered: seq<Entry> := [];
    for i := 0 to |examined|
      invariant filtered == Kept(examined[..i], minDuration * 60, maxDuration * 60)
    {
      assert examined[..i + 1][..i] == examined[..i];
      ghost var before := Admitted(examined[..i], minDuration * 60, maxDuration * 60);
      match examined[i]
      case FetchRaised =>
        assert Admitted(examined[..i + 1], minDuration * 60, maxDuration * 60) == before;
      case Fetched(meta) =>
        if minDuration * 60 <= meta.length <= maxDuration * 60 {
          var entry := AssessVideo(meta);
          filtered := filtered + [entry];
          assert Admitted(examined[..i + 1], minDuration * 60, maxDuration * 60) == before + [meta];
          MapSeqConcat(Assess, before, [meta]);
          assert MapSeq(Assess, [meta]) == [Assess(meta)] by {
            assert [meta][..0] == [];
          }
        } else {
          assert Admitted(examined[..i + 1], minDuration * 60, maxDuration * 60) == before;
        }
    }
    assert examined[..|examined|] == examined;
    filtered := SortedByScore(filtered);
    results := filtered[..Min(maxResults, |filtered|)];
  }

  /**
    The body of the scan for one video in the window: the language by the first keyword
    list that matches, the university flag, and the score accumulated from both.
  */
  method AssessVideo(meta: VideoMeta) returns (entry: Entry)
    ensures entry == Assess(meta)
  {
    var duration := meta.length;
    var text := SearchText(meta);
    var language := Other;
    if MentionsAny(text, ArabicWords) {
      language := Arabic;
    } else if MentionsAny(text, EnglishWords) {
      language := English;
    } else if MentionsAny(text, HindiWords) {
      language := Hindi;
    }
    var egyptian := MentionsAny(text, UniversityWords);
    var score := 0;
    if language == Arabic {
      score := score + 3;
    } else if language == English {
      score := score + 2;
    } else if language == Hindi {
      score := score + 1;
    }
    if egyptian {
      score := score + 2;
    }
    entry := Entry(meta.title, meta.url, FormatDuration(duration), language, egyptian, score, meta.thumbnail);
  }

  /** At most maxResults videos are reported, in non-increasing order of score, each scored in 0..5. */
  lemma {:induction false} ResultShape(fetches: seq<Fetch>, maxResults: int, minDuration: int, maxDuration: int)
    requires maxResults >= 0
    ensures var r := SearchResult(fetches, maxResults, minDuration, maxDuration);
      |r| <= maxResults && Descending(r) && ScoresInRange(r)
  {
    var s := Kept(fetches[..Min(3 * maxResults, |fetches|)], minDuration * 60, maxDuration * 60);
    SortedIsDescending(s);
  }

  /** Every reported video is a fetched video among the first 3 * maxResults, in the duration window. */
  lemma {:induction false} ResultsFromExamined(fetches: seq<Fetch>, maxResults: int, minDuration: int, maxDuration: int, e: Entry)
    requires maxResults >= 0
    requires e in SearchResult(fetches, maxResults, minDuration, maxDuration)
    ensures exists j :: 0 <= j < 3 * maxResults && j < |fetches| && fetches[j].Fetched? &&
                        InWindow(fetches[j].meta.length, minDuration * 60, maxDuration * 60) && e == Assess(fetches[j].meta)
  {
    var examined := fetches[..Min(3 * maxResults, |fetches|)];
    var s := Kept(examined, minDuration * 60, maxDuration * 60);
    KeptScoresInRange(examined, minDuration * 60, maxDuration * 60);
    SortedIsPermutation(s);
    assert e in multiset(SortedByScore(s));
    KeptFromWindow(examined, minDuration * 60, maxDuration * 60, e);
    var j :| 0 <= j < |examined| && examined[j].Fetched? &&
      InWindow(examined[j].meta.length, minDuration * 60, maxDuration * 60) && e == Assess(examined[j].meta);
    assert fetches[j] == examined[j];
  }

  /** A kept video that is not reported scores no higher than any reported one. */
  lemma {:induction false} ReportedAreBest(fetches: seq<Fetch>, maxResults: int, minDuration: int, maxDuration: int, i: nat, j: nat)
    requires maxResults >= 0
    requires var sorted := SortedByScore(Kept(fetches[..Min(3 * maxResults, |fetches|)], minDuration * 60, maxDuration * 60));
      i < maxResults <= j < |sorted|
    ensures var sorted := SortedByScore(Kept(fetches[..Min(3 * maxResults, |fetches|)], minDuration * 60, maxDuration * 60));
      sorted[i] in SearchResult(fetches, maxResults, minDuration, maxDuration) &&
      sorted[i].score >= sorted[j].score
  {
    var s := Kept(fetches[..Min(3 * maxResults, |fetches|)], minDuration * 60, maxDuration * 60);
    SortedIsDescending(s);
    var sorted := SortedByScore(s);
    assert sorted[i] == sorted[..Min(maxResults, |sorted|)][i];
  }

  lemma {:induction false} KeptScoresInRange(fetches: seq<Fetch>, shortest: int, longest: int)
    ensures ScoresInRange(Kept(fetches, shortest, longest))
  {
    var metas := Admitted(fetches, shortest, longest);
    MapSeqIndex(Assess, metas);
    forall i | 0 <= i < |metas|
      ensures 0 <= Kept(fetches, shortest, longest)[i].score <= MaxScore
    {
      ScoreBounds(metas[i]);
    }
  }
}
