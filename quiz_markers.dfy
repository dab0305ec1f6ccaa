/** The answer markers a generated question carries and the two operations on
    them in chibi/services/quiz_service.py: `_extract_correct_answer` reads
    the answer out of the first marker, `_clean_question` deletes every
    marker and a leading "Question:" label.

    The four regular expressions are matched as Python's `re` engine does:
    leftmost match, greedy `\s*` that gives characters back when the rest
    fails, lazy `.+?` that takes the fewest characters (never a newline)
    before a `]`, and IGNORECASE on the literal words and on `[A-D]`.
    `\s` is `str.isspace` and case is folded on ASCII letters. */
module QuizMarkers {
  import opened Wrappers
  import opened Text
  import opened Seqs

  /** A text without `[`, which can hold no marker. */
  predicate NoBracket(s: string) {
    forall j :: 0 <= j < |s| ==> s[j] != '['
  }

  /** An answer the lazy `(.+?)\]` captures whole after one space: it is
      not empty, does not open with whitespace and holds no `]` and no
      newline. */
  predicate InlineAnswer(s: string) {
    s != [] && !IsSpace(s[0]) && forall j :: 0 <= j < |s| ==> s[j] != ']' && s[j] != '\n'
  }

  /** The four marker patterns, in the order `_clean_question` removes them. */
  datatype MarkerKind =
    | ChoiceMarker     // \[CORRECT:\s*[A-D]\]
    | BoolMarker       // \[CORRECT:\s*(True|False)\]
    | ExpectedMarker   // \[EXPECTED:\s*(.+?)\]
    | AnswerMarker     // \[ANSWER:\s*(.+?)\]

  /** The literal head of a marker, lower-cased. */
  function Head(k: MarkerKind): string {
    match k
    case ChoiceMarker => "[correct:"
    case BoolMarker => "[correct:"
    case ExpectedMarker => "[expected:"
    case AnswerMarker => "[answer:"
  }

  /** Where a match of a marker sits: the captured group is
      `text[groupStart..groupEnd]` and the match ends before `end`. */
  datatype Span = Span(groupStart: nat, groupEnd: nat, end: nat)

  /** `lit` (lower-case) occurs at `i`, ignoring ASCII case. */
  predicate HeadAt(text: string, i: nat, lit: string) {
    i + |lit| <= |text| && forall m :: 0 <= m < |lit| ==> LowerChar(text[i + m]) == lit[m]
  }

  /** The comparison is Python's `text[i:i+len(lit)].lower() == lit`. */
  lemma HeadAtIsLowerSlice(text: string, i: nat, lit: string)
    ensures HeadAt(text, i, lit) <==> i + |lit| <= |text| && Lower(text[i..i + |lit|]) == lit
  {
    if i + |lit| <= |text| {
      var w := Lower(text[i..i + |lit|]);
      if HeadAt(text, i, lit) {
        assert forall m :: 0 <= m < |lit| ==> w[m] == lit[m];
      }
      if w == lit {
        forall m | 0 <= m < |lit| ensures LowerChar(text[i + m]) == lit[m] {
          assert w[m] == LowerChar(text[i..i + |lit|][m]);
        }
      }
    }
  }

  /** A head that opens with `[` can only match at a `[`. */
  lemma HeadAtBracket(text: string, i: nat, lit: string)
    requires lit != [] && lit[0] == '['
    requires HeadAt(text, i, lit)
    ensures text[i] == '['
  {
    assert LowerChar(text[i + 0]) == lit[0];
  }

  /** `\s*` from `p`: the number of whitespace characters starting there. */
  function SpacesFrom(text: string, p: nat): (w: nat)
    ensures p + w <= |text| || (p > |text| && w == 0)
    decreases |text| - p
  {
    if p < |text| && IsSpace(text[p]) then 1 + SpacesFrom(text, p + 1) else 0
  }

  /** It is `LeadingSpaces` of the rest of the text. */
  lemma {:induction false} SpacesFromIsLeadingSpaces(text: string, p: nat)
    requires p <= |text|
    ensures SpacesFrom(text, p) == LeadingSpaces(text[p..])
    decreases |text| - p
  {
    if p < |text| && IsSpace(text[p]) {
      SpacesFromIsLeadingSpaces(text, p + 1);
      assert text[p..][1..] == text[p + 1..];
    }
  }

  /** The lazy `(.+?)\]` whose group starts at `p`: the first `]` after `p`,
      provided no character consumed on the way is a newline; `k` is the
      candidate position of the `]`. */
  function LazyClose(text: string, p: nat, k: nat): (q: Option<nat>)
    requires p < k <= |text|
    ensures q.Some? ==> k <= q.value < |text| && text[q.value] == ']'
    decreases |text| - k
  {
    if text[k - 1] == '\n' then None
    else if k == |text| then None
    else if text[k] == ']' then Some(k)
    else LazyClose(text, p, k + 1)
  }

  /** The lazy group stops at the first `]` after `k - 1` and never runs
      over a newline. */
  lemma {:induction false} LazyCloseIsFirst(text: string, p: nat, k: nat)
    requires p < k <= |text|
    ensures var q := LazyClose(text, p, k);
      q.Some? ==> ((forall j :: k - 1 <= j < q.value ==> text[j] != '\n')
        && (forall j :: k <= j < q.value ==> text[j] != ']'))
    decreases |text| - k
  {
    if text[k - 1] != '\n' && k < |text| && text[k] != ']' {
      LazyCloseIsFirst(text, p, k + 1);
    }
  }

  /** `\s*(.+?)\]` from `base`, trying `w` whitespace characters first and
      giving them back one at a time. */
  function LazyFrom(text: string, base: nat, w: nat): (r: Option<Span>)
    requires base + w <= |text|
    ensures r.Some? ==> (base <= r.value.groupStart < r.value.groupEnd < r.value.end <= |text|
      && r.value.end == r.value.groupEnd + 1 && text[r.value.groupEnd] == ']')
    decreases w
  {
    var p := base + w;
    var q := if p < |text| then LazyClose(text, p, p + 1) else None;
    if q.Some? then Some(Span(p, q.value, q.value + 1))
    else if w == 0 then None
    else LazyFrom(text, base, w - 1)
  }

  predicate IsChoiceLetter(c: char) {
    'A' <= c <= 'D' || 'a' <= c <= 'd'
  }

  /** `[A-D]\]` at `p`, ignoring case. */
  function ChoiceAt(text: string, p: nat): (r: Option<Span>)
    ensures r.Some? ==> (r.value == Span(p, p + 1, p + 2) && p + 2 <= |text|
      && IsChoiceLetter(text[p]) && text[p + 1] == ']')
  {
    if p + 1 < |text| && IsChoiceLetter(text[p]) && text[p + 1] == ']' then Some(Span(p, p + 1, p + 2))
    else None
  }

  /** `(True|False)\]` at `p`, ignoring case. */
  function BoolAt(text: string, p: nat): (r: Option<Span>)
    ensures r.Some? ==> (p <= r.value.groupStart <= r.value.groupEnd < r.value.end <= |text|
      && text[r.value.end - 1] == ']')
  {
    if HeadAt(text, p, "true") && p + 4 < |text| && text[p + 4] == ']' then Some(Span(p, p + 4, p + 5))
    else if HeadAt(text, p, "false") && p + 5 < |text| && text[p + 5] == ']' then Some(Span(p, p + 5, p + 6))
    else None
  }

  /** The part of a marker after its head, which ends at `base`. */
  function MatchBody(text: string, base: nat, k: MarkerKind): (r: Option<Span>)
    requires base <= |text|
    ensures r.Some? ==> (base <= r.value.groupStart <= r.value.groupEnd < r.value.end <= |text|
      && text[r.value.end - 1] == ']')
  {
    var w := SpacesFrom(text, base);
    match k
    case ChoiceMarker => ChoiceAt(text, base + w)
    case BoolMarker => BoolAt(text, base + w)
    case ExpectedMarker => LazyFrom(text, base, w)
    case AnswerMarker => LazyFrom(text, base, w)
  }

  /** The marker `k` matches at position `i`. */
  function MatchAt(text: string, i: nat, k: MarkerKind): (r: Option<Span>)
    ensures r.Some? ==> (i < r.value.groupStart <= r.value.groupEnd < r.value.end <= |text|
      && text[i] == '[' && text[r.value.end - 1] == ']')
  {
    if !HeadAt(text, i, Head(k)) then None
    else
      HeadAtBracket(text, i, Head(k));
      MatchBody(text, i + |Head(k)|, k)
  }

  /** Whether `k` matches at each position of the text. */
  function Matches(text: string, k: MarkerKind): (ms: seq<Option<Span>>)
    ensures |ms| == |text| && forall j :: 0 <= j < |text| ==> ms[j] == MatchAt(text, j, k)
  {
    seq(|text|, j requires 0 <= j => MatchAt(text, j, k))
  }

  /** `re.search`: the leftmost position at or after `from` where `k` matches. */
  function Search(text: string, k: MarkerKind, from: nat): (r: Option<(nat, Span)>)
    ensures r.Some? ==> from <= r.value.0 < |text| && MatchAt(text, r.value.0, k) == Some(r.value.1)
  {
    FirstSome(Matches(text, k), from)
  }

  /** The search finds the leftmost match: nothing matches between `from`
      and the position found, and nothing at all when it finds none. */
  lemma SearchLeftmost(text: string, k: MarkerKind, from: nat)
    ensures var r := Search(text, k, from);
      (r.Some? ==> forall j :: from <= j < r.value.0 ==> MatchAt(text, j, k).None?)
      && (r.None? ==> forall j :: from <= j < |text| ==> MatchAt(text, j, k).None?)
  {
    var ms := Matches(text, k);
    FirstSomeLeftmost(ms, from);
    var r := Search(text, k, from);
    var end := if r.Some? then r.value.0 else |text|;
    forall j | from <= j < end ensures MatchAt(text, j, k).None? {
      assert ms[j].None?;
    }
  }

  /** A search that sees no match before `i` and a match at `i` stops at `i`. */
  lemma SearchFindsFirst(text: string, k: MarkerKind, from: nat, i: nat)
    requires from <= i < |text| && MatchAt(text, i, k).Some?
    requires forall j :: from <= j < i ==> MatchAt(text, j, k).None?
    ensures Search(text, k, from) == Some((i, MatchAt(text, i, k).value))
  {
    var ms := Matches(text, k);
    forall j | from <= j < i ensures ms[j].None? {
      assert ms[j] == MatchAt(text, j, k);
    }
    FirstSomeAt(ms, from, i);
  }

  /** Where nothing matches, the search finds nothing. */
  lemma SearchNoMatch(text: string, k: MarkerKind, from: nat)
    requires forall j :: from <= j < |text| ==> MatchAt(text, j, k).None?
    ensures Search(text, k, from).None?
  {
    var ms := Matches(text, k);
    forall j | from <= j < |ms| ensures ms[j].None? {
      assert ms[j] == MatchAt(text, j, k);
    }
    FirstSomeNone(ms, from);
  }

  /** A position without `[` starts no marker. */
  lemma NoMatchWithoutBracket(text: string, i: nat, k: MarkerKind)
    requires i < |text| ==> text[i] != '['
    ensures MatchAt(text, i, k).None?
  {
    if HeadAt(text, i, Head(k)) {
      HeadAtBracket(text, i, Head(k));
    }
  }


  /** A text with no `[` holds no marker. */
  lemma SearchWithoutBracket(text: string, k: MarkerKind, from: nat)
    requires NoBracket(text)
    ensures Search(text, k, from).None?
  {
    forall j | from <= j < |text| ensures MatchAt(text, j, k).None? {
      NoMatchWithoutBracket(text, j, k);
    }
    SearchNoMatch(text, k, from);
  }

  /** The regular expression `_extract_correct_answer` uses for a quiz
      format; only the four formats have one. */
  function PatternFor(quizFormat: string): Option<MarkerKind> {
    if quizFormat == "multiple-choice" then Some(ChoiceMarker)
    else if quizFormat == "short-answer" then Some(ExpectedMarker)
    else if quizFormat == "true-false" then Some(BoolMarker)
    else if quizFormat == "fill-blank" then Some(AnswerMarker)
    else None
  }

  /** `QuizService._extract_correct_answer`: the stripped group of the first
      marker for the format, or None. */
  function ExtractCorrectAnswer(text: string, quizFormat: string): (r: Option<string>)
    ensures PatternFor(quizFormat).None? ==> r == None
    ensures r.Some? ==> IsStripped(r.value)
  {
    match PatternFor(quizFormat)
    case None => None
    case Some(k) =>
      match Search(text, k, 0)
      case None => None
      case Some((_, sp)) => Some(Strip(text[sp.groupStart..sp.groupEnd]))
  }

  /** When the first `[` of the text starts a match `sp` of the format's
      marker, extraction returns that match's stripped group. */
  lemma ExtractAtFirstBracket(text: string, quizFormat: string, k: MarkerKind, i: nat, sp: Span)
    requires PatternFor(quizFormat) == Some(k)
    requires forall j :: 0 <= j < i && j < |text| ==> text[j] != '['
    requires MatchAt(text, i, k) == Some(sp)
    ensures ExtractCorrectAnswer(text, quizFormat) == Some(Strip(text[sp.groupStart..sp.groupEnd]))
  {
    forall j | 0 <= j < i ensures MatchAt(text, j, k).None? {
      NoMatchWithoutBracket(text, j, k);
    }
    SearchFindsFirst(text, k, 0, i);
  }

  /** A multiple-choice answer is a single letter A-D, in either case. */
  lemma ChoiceAnswerIsOneLetter(text: string)
    ensures var r := ExtractCorrectAnswer(text, "multiple-choice");
      r.Some? ==> |r.value| == 1 && IsChoiceLetter(r.value[0])
  {
    var s := Search(text, ChoiceMarker, 0);
    if s.Some? {
      var sp := s.value.1;
      var i := s.value.0;
      assert HeadAt(text, i, Head(ChoiceMarker));
      assert MatchBody(text, i + 9, ChoiceMarker) == Some(sp);
      var g := text[sp.groupStart..sp.groupEnd];
      assert |g| == 1 && IsChoiceLetter(g[0]);
      StripOfStripped(g);
    }
  }

  /** Text without a `[` yields no answer, whatever the format. */
  lemma ExtractWithoutBracket(text: string, quizFormat: string)
    requires NoBracket(text)
    ensures ExtractCorrectAnswer(text, quizFormat) == None
  {
    if PatternFor(quizFormat).Some? {
      SearchWithoutBracket(text, PatternFor(quizFormat).value, 0);
    }
  }

  /** The generation prompt asks for `[EXPECTED: answer]` (short answer)
      after the question; with the head written in any letter case, one
      space, a question without `[` and an answer without `]` or a newline,
      extraction gives the answer back. */
  lemma ExtractExpectedRoundTrip(question: string, head: string, answer: string)
    requires Lower(head) == Head(ExpectedMarker)
    requires NoBracket(question)
    requires InlineAnswer(answer) && IsStripped(answer)
    ensures ExtractCorrectAnswer(question + head + " " + answer + "]", "short-answer") == Some(answer)
  {
    var text := question + head + " " + answer + "]";
    var s := |question| + 11;
    assert |head| == 10;
    MarkerLayout(text, question, head, answer, s);
    ExpectedMarkerAfterQuestion(text, question, head, answer);
    StripOfStripped(answer);
  }

  /** In `question + head + " " + answer + "]"`, with the head spelling
      `[EXPECTED:` in any case, the search finds the marker right after the
      question and its group is the answer. */
  lemma ExpectedMarkerAfterQuestion(text: string, question: string, head: string, answer: string)
    requires Lower(head) == Head(ExpectedMarker)
    requires NoBracket(question)
    requires InlineAnswer(answer)
    requires text == question + head + " " + answer + "]"
    ensures var i, n := |question|, |answer|;
      Search(text, ExpectedMarker, 0) == Some((i, Span(i + 11, i + 11 + n, i + 12 + n)))
  {
    var i, n := |question|, |answer|;
    ExpectedLayout(text, question, head, answer);
    assert Search(text, ExpectedMarker, 0) == Some((i, Span(i + 11, i + 11 + n, i + 12 + n))) by {
      ExpectedFoundAt(text, i, n);
    }
  }

  /** The positions `ExpectedFoundAt` needs, read off the concatenation. */
  lemma ExpectedLayout(text: string, question: string, head: string, answer: string)
    requires Lower(head) == Head(ExpectedMarker)
    requires NoBracket(question)
    requires InlineAnswer(answer)
    requires text == question + head + " " + answer + "]"
    ensures HeadAt(text, |question|, Head(ExpectedMarker))
    ensures forall j :: 0 <= j < |question| ==> text[j] != '['
    ensures |question| + 11 + |answer| < |text|
    ensures text[|question| + 10] == ' ' && !IsSpace(text[|question| + 11])
    ensures text[|question| + 11 + |answer|] == ']'
    ensures forall j :: |question| + 11 <= j < |question| + 11 + |answer| ==> text[j] != ']' && text[j] != '\n'
  {
    var i := |question|;
    assert |head| == 10;
    MarkerLayout(text, question, head, answer, i + 11);
    AnswerGroupFacts(text, i + 11, answer);
    NoBracketInQuestion(text, question);
  }

  /** The question that opens the text contributes no `[`. */
  lemma NoBracketInQuestion(text: string, question: string)
    requires |question| <= |text| && text[..|question|] == question
    requires NoBracket(question)
    ensures forall j :: 0 <= j < |question| ==> text[j] != '['
  {
    forall j | 0 <= j < |question| ensures text[j] != '[' {
      assert text[j] == text[..|question|][j];
    }
  }

  /** An `[EXPECTED: answer]` marker at the first `[` of the text is the
      one the search finds. */
  lemma ExpectedFoundAt(text: string, i: nat, n: nat)
    requires HeadAt(text, i, Head(ExpectedMarker))
    requires forall j :: 0 <= j < i ==> text[j] != '['
    requires n >= 1 && i + 11 + n < |text|
    requires text[i + 10] == ' ' && !IsSpace(text[i + 11])
    requires text[i + 11 + n] == ']'
    requires forall j :: i + 11 <= j < i + 11 + n ==> text[j] != ']' && text[j] != '\n'
    ensures Search(text, ExpectedMarker, 0) == Some((i, Span(i + 11, i + 11 + n, i + 12 + n)))
  {
    ExpectedMatchesAt(text, i, n);
    forall j | 0 <= j < i ensures MatchAt(text, j, ExpectedMarker).None? {
      NoMatchWithoutBracket(text, j, ExpectedMarker);
    }
    SearchFindsFirst(text, ExpectedMarker, 0, i);
  }

  /** The same for `[ANSWER: term]` (fill in the blank). */
  lemma ExtractAnswerRoundTrip(question: string, head: string, answer: string)
    requires Lower(head) == Head(AnswerMarker)
    requires NoBracket(question)
    requires InlineAnswer(answer) && IsStripped(answer)
    ensures ExtractCorrectAnswer(question + head + " " + answer + "]", "fill-blank") == Some(answer)
  {
    var text := question + head + " " + answer + "]";
    var i := |question|;
    var n := |answer|;
    assert |head| == 8;
    MarkerLayout(text, question, head, answer, i + 9);
    AnswerGroupFacts(text, i + 9, answer);
    AnswerMatchesAt(text, i, n);
    ExtractAfterQuestion(text, question, "fill-blank", AnswerMarker, Span(i + 9, i + 9 + n, i + 10 + n), answer);
  }

  /** The multiple-choice marker `[CORRECT: X]`, head in any letter case,
      gives back its letter. */
  lemma ExtractChoiceRoundTrip(question: string, head: string, letter: char)
    requires Lower(head) == Head(ChoiceMarker)
    requires NoBracket(question)
    requires IsChoiceLetter(letter)
    ensures ExtractCorrectAnswer(question + head + " " + [letter] + "]", "multiple-choice") == Some([letter])
  {
    var text := question + head + " " + [letter] + "]";
    var i := |question|;
    assert |head| == 9;
    MarkerLayout(text, question, head, [letter], i + 10);
    assert text[i + 10] == letter;
    ChoiceMatchesAt(text, i);
    ExtractAfterQuestion(text, question, "multiple-choice", ChoiceMarker, Span(i + 10, i + 11, i + 12), [letter]);
  }

  /** No marker starts inside a question without `[` that opens the text. */
  lemma NoMarkerInQuestion(text: string, question: string, k: MarkerKind)
    requires |question| <= |text| && text[..|question|] == question
    requires NoBracket(question)
    ensures forall j :: 0 <= j < |question| ==> MatchAt(text, j, k).None?
  {
    NoBracketInQuestion(text, question);
    forall j | 0 <= j < |question| ensures MatchAt(text, j, k).None? {
      NoMatchWithoutBracket(text, j, k);
    }
  }

  /** A marker matching right after a question without `[` is the one
      extraction reads; its group, already stripped, comes back unchanged. */
  lemma ExtractAfterQuestion(text: string, question: string, quizFormat: string, k: MarkerKind, sp: Span, answer: string)
    requires PatternFor(quizFormat) == Some(k)
    requires |question| <= |text| && text[..|question|] == question
    requires NoBracket(question)
    requires MatchAt(text, |question|, k) == Some(sp)
    requires text[sp.groupStart..sp.groupEnd] == answer && IsStripped(answer)
    ensures ExtractCorrectAnswer(text, quizFormat) == Some(answer)
  {
    NoMarkerInQuestion(text, question, k);
    SearchFindsFirst(text, k, 0, |question|);
    StripOfStripped(answer);
  }

  /** A `[CORRECT: X]` marker at `i` matches there with the letter as its
      group. */
  lemma ChoiceMatchesAt(text: string, i: nat)
    requires HeadAt(text, i, Head(ChoiceMarker)) && i + 12 <= |text|
    requires text[i + 9] == ' ' && IsChoiceLetter(text[i + 10]) && text[i + 11] == ']'
    ensures MatchAt(text, i, ChoiceMarker) == Some(Span(i + 10, i + 11, i + 12))
  {
    assert SpacesFrom(text, i + 10) == 0;
    assert SpacesFrom(text, i + 9) == 1;
  }

  /** The lazy group closes at the first `]` when nothing before it is a
      newline or a `]`. */
  lemma {:induction false} LazyCloseAtFirstBracket(text: string, p: nat, k: nat, q: nat)
    requires p < k <= q < |text| && text[q] == ']'
    requires forall j :: p <= j < q ==> text[j] != '\n' && text[j] != ']'
    ensures LazyClose(text, p, k) == Some(q)
    decreases q - k
  {
    if k < q {
      LazyCloseAtFirstBracket(text, p, k + 1, q);
    }
  }

  /** After a lazy marker's head ending at `base`: one space, then `n`
      characters that are neither `]` nor a newline and do not start with
      whitespace, then `]`. The body matches with those characters as its
      group. */
  lemma LazyBodyMatches(text: string, base: nat, n: nat)
    requires n >= 1 && base + 1 + n < |text|
    requires text[base] == ' ' && !IsSpace(text[base + 1])
    requires text[base + 1 + n] == ']'
    requires forall j :: base + 1 <= j < base + 1 + n ==> text[j] != ']' && text[j] != '\n'
    ensures LazyFrom(text, base, SpacesFrom(text, base)) == Some(Span(base + 1, base + 1 + n, base + 2 + n))
  {
    var s := base + 1;
    assert SpacesFrom(text, s) == 0;
    assert SpacesFrom(text, base) == 1;
    LazyCloseAtFirstBracket(text, s, s + 1, s + n);
  }

  /** `[EXPECTED: answer]` at `i` matches with the answer as its group. */
  lemma ExpectedMatchesAt(text: string, i: nat, n: nat)
    requires HeadAt(text, i, Head(ExpectedMarker))
    requires n >= 1 && i + 11 + n < |text|
    requires text[i + 10] == ' ' && !IsSpace(text[i + 11])
    requires text[i + 11 + n] == ']'
    requires forall j :: i + 11 <= j < i + 11 + n ==> text[j] != ']' && text[j] != '\n'
    ensures MatchAt(text, i, ExpectedMarker) == Some(Span(i + 11, i + 11 + n, i + 12 + n))
  {
    LazyBodyMatches(text, i + 10, n);
  }

  /** `[ANSWER: term]` at `i` matches with the term as its group. */
  lemma AnswerMatchesAt(text: string, i: nat, n: nat)
    requires HeadAt(text, i, Head(AnswerMarker))
    requires n >= 1 && i + 9 + n < |text|
    requires text[i + 8] == ' ' && !IsSpace(text[i + 9])
    requires text[i + 9 + n] == ']'
    requires forall j :: i + 9 <= j < i + 9 + n ==> text[j] != ']' && text[j] != '\n'
    ensures MatchAt(text, i, AnswerMarker) == Some(Span(i + 9, i + 9 + n, i + 10 + n))
  {
    LazyBodyMatches(text, i + 8, n);
  }

  /** Where the parts of `question + upper + " " + answer + "]"` sit, with
      the answer starting at `s`; the head is found at the end of the
      question whatever its letter case. */
  lemma MarkerLayout(text: string, question: string, upper: string, answer: string, s: nat)
    requires text == question + upper + " " + answer + "]"
    requires s == |question| + |upper| + 1
    ensures |text| == s + |answer| + 1
    ensures text[..|question|] == question
    ensures HeadAt(text, |question|, Lower(upper))
    ensures text[s - 1] == ' ' && text[s + |answer|] == ']'
    ensures text[s..s + |answer|] == answer
    ensures forall j :: s <= j < s + |answer| ==> text[j] == answer[j - s]
  {
    LayoutHead(text, question, upper, answer);
    LayoutAnswer(text, question, upper, answer, s);
  }

  /** The question opens the text and the head follows it. */
  lemma LayoutHead(text: string, question: string, upper: string, answer: string)
    requires text == question + upper + " " + answer + "]"
    ensures text[..|question|] == question
    ensures HeadAt(text, |question|, Lower(upper))
  {
    var i := |question|;
    var front := question + upper;
    var body := front + " " + answer;
    assert text == body + "]";
    assert text[..i] == body[..i] == front[..i];
    forall m | 0 <= m < |upper| ensures LowerChar(text[i + m]) == Lower(upper)[m] {
      assert text[i + m] == body[i + m] == front[i + m] == upper[m];
    }
  }

  /** The space, the answer and the closing `]` follow the head. */
  lemma LayoutAnswer(text: string, question: string, upper: string, answer: string, s: nat)
    requires text == question + upper + " " + answer + "]"
    requires s == |question| + |upper| + 1
    ensures |text| == s + |answer| + 1
    ensures text[s - 1] == ' ' && text[s + |answer|] == ']'
    ensures text[s..s + |answer|] == answer
    ensures forall j :: s <= j < s + |answer| ==> text[j] == answer[j - s]
  {
    var body := question + upper + " " + answer;
    assert text == body + "]";
    assert text[s..s + |answer|] == body[s..] == answer;
    forall j | s <= j < s + |answer| ensures text[j] == answer[j - s] {
      assert text[j] == text[s..s + |answer|][j - s];
    }
  }

  /** The characters of an answer copied into `text` at `s`. */
  lemma AnswerGroupFacts(text: string, s: nat, answer: string)
    requires InlineAnswer(answer)
    requires s + |answer| <= |text|
    requires forall j :: s <= j < s + |answer| ==> text[j] == answer[j - s]
    ensures !IsSpace(text[s])
    ensures forall j :: s <= j < s + |answer| ==> text[j] != ']' && text[j] != '\n'
  {
  }

  /** `re.sub(pattern, "", text[from:])`: every non-overlapping match, left
      to right, deleted. */
  function RemoveFrom(text: string, k: MarkerKind, from: nat): (r: string)
    requires from <= |text|
    ensures |r| <= |text| - from
    decreases |text| - from
  {
    match Search(text, k, from)
    case None => text[from..]
    case Some((i, sp)) => text[from..i] + RemoveFrom(text, k, sp.end)
  }

  function RemoveAll(text: string, k: MarkerKind): (r: string)
    ensures |r| <= |text|
  {
    RemoveFrom(text, k, 0)
  }

  /** Removing a marker that is absent changes nothing. */
  lemma RemoveAllWithoutMatch(text: string, k: MarkerKind)
    requires Search(text, k, 0).None?
    ensures RemoveAll(text, k) == text
  {
  }

  /** `^Question:\s*` removed from the start, ignoring case. */
  function DropQuestionLabel(text: string): (r: string)
    ensures |r| <= |text|
    ensures !HeadAt(text, 0, "question:") ==> r == text
  {
    if HeadAt(text, 0, "question:") then
      var rest := text[9..];
      rest[LeadingSpaces(rest)..]
    else text
  }

  /** The patterns `_clean_question` removes, in order. */
  const CleanOrder: seq<MarkerKind> := [ChoiceMarker, BoolMarker, ExpectedMarker, AnswerMarker]

  /** The text after removing the markers of `kinds` in turn. */
  function RemoveKinds(text: string, kinds: seq<MarkerKind>): (r: string)
    ensures |r| <= |text|
    decreases |kinds|
  {
    if kinds == [] then text else RemoveKinds(RemoveAll(text, kinds[0]), kinds[1..])
  }

  /** Removing the kinds of `CleanOrder` is four passes of `re.sub`. */
  lemma RemoveKindsInCleanOrder(text: string)
    ensures RemoveKinds(text, CleanOrder)
      == RemoveAll(RemoveAll(RemoveAll(RemoveAll(text, ChoiceMarker), BoolMarker), ExpectedMarker), AnswerMarker)
  {
    var t1 := RemoveAll(text, ChoiceMarker);
    var t2 := RemoveAll(t1, BoolMarker);
    var t3 := RemoveAll(t2, ExpectedMarker);
    assert CleanOrder[1..] == [BoolMarker, ExpectedMarker, AnswerMarker];
    assert CleanOrder[1..][1..] == [ExpectedMarker, AnswerMarker];
    assert CleanOrder[1..][1..][1..] == [AnswerMarker];
    assert RemoveKinds(t3, [AnswerMarker]) == RemoveKinds(RemoveAll(t3, AnswerMarker), []);
  }

  /** `QuizService._clean_question`. */
  method CleanQuestion(text: string) returns (cleaned: string)
    ensures cleaned == Strip(DropQuestionLabel(Strip(RemoveKinds(text, CleanOrder))))
    ensures |cleaned| <= |text|
    ensures IsStripped(cleaned)
  {
    var t := text;
    var n := 0;
    while n < |CleanOrder|
      invariant 0 <= n <= |CleanOrder|
      invariant RemoveKinds(t, CleanOrder[n..]) == RemoveKinds(text, CleanOrder)
      invariant |t| <= |text|
    {
      assert CleanOrder[n..][1..] == CleanOrder[n + 1..];
      t := RemoveAll(t, CleanOrder[n]);
      n := n + 1;
    }
    t := DropQuestionLabel(Strip(t));
    cleaned := Strip(t);
    assert IsStripped(cleaned);
  }

  /** The question the generator writes before its `[EXPECTED: ...]` marker
      (head in any letter case) is what remains after cleaning, when neither
      the question nor the answer has a `[` and the question does not open
      with a "Question:" label. */
  lemma CleanQuestionDropsExpectedMarker(question: string, head: string, answer: string)
    requires Lower(head) == Head(ExpectedMarker)
    requires NoBracket(question)
    requires InlineAnswer(answer) && NoBracket(answer)
    requires !HeadAt(Strip(question), 0, "question:")
    ensures Strip(DropQuestionLabel(Strip(RemoveKinds(question + head + " " + answer + "]", CleanOrder))))
      == Strip(question)
  {
    RemoveMarkersLeavesQuestion(question + head + " " + answer + "]", question, head, answer);
    StripOfStripped(Strip(question));
  }

  /** Removing the four kinds of marker from that text leaves the question. */
  lemma RemoveMarkersLeavesQuestion(text: string, question: string, head: string, answer: string)
    requires Lower(head) == Head(ExpectedMarker)
    requires NoBracket(question)
    requires InlineAnswer(answer) && NoBracket(answer)
    requires text == question + head + " " + answer + "]"
    ensures RemoveKinds(text, CleanOrder) == question
  {
    assert RemoveAll(text, ChoiceMarker) == text && RemoveAll(text, BoolMarker) == text by {
      OnlyExpectedBracket(text, question, head, answer);
      NoCorrectMarker(text, |question|);
      RemoveAllWithoutMatch(text, ChoiceMarker);
      RemoveAllWithoutMatch(text, BoolMarker);
    }
    assert RemoveAll(text, ExpectedMarker) == question by {
      RemoveTrailingMarker(text, question, head, answer);
    }
    SearchWithoutBracket(question, AnswerMarker, 0);
    RemoveAllWithoutMatch(question, AnswerMarker);
    RemoveKindsInCleanOrder(text);
  }

  /** In `question + head + " " + answer + "]"` the only `[` is the
      marker's own, and the character after it folds to `e`. */
  lemma OnlyExpectedBracket(text: string, question: string, head: string, answer: string)
    requires Lower(head) == Head(ExpectedMarker)
    requires NoBracket(question)
    requires NoBracket(answer)
    requires text == question + head + " " + answer + "]"
    ensures |question| + 1 < |text| && LowerChar(text[|question| + 1]) == 'e'
    ensures forall j :: 0 <= j < |text| && j != |question| ==> text[j] != '['
  {
    var i := |question|;
    var h := |head|;
    var tail := head + " " + answer + "]";
    assert text == question + tail;
    assert Lower(head)[1] == LowerChar(head[1]);
    forall j | 0 <= j < |text| && j != i ensures text[j] != '[' {
      if j < i {
        assert text[j] == question[j];
      } else if j - i < h {
        assert text[j] == head[j - i];
        assert Lower(head)[j - i] == LowerChar(head[j - i]);
      } else if j - i == h {
        assert text[j] == ' ';
      } else if j - i < h + 1 + |answer| {
        assert text[j] == answer[j - i - h - 1];
      } else {
        assert text[j] == ']';
      }
    }
  }

  /** A text whose only `[` at `i` is followed by a letter folding to `e`
      holds no `[CORRECT:` marker of either kind. */
  lemma NoCorrectMarker(text: string, i: nat)
    requires i + 1 < |text| && LowerChar(text[i + 1]) == 'e'
    requires forall j :: 0 <= j < |text| && j != i ==> text[j] != '['
    ensures Search(text, ChoiceMarker, 0).None? && Search(text, BoolMarker, 0).None?
  {
    assert !HeadAt(text, i, "[correct:") by {
      assert "[correct:"[1] == 'c';
    }
    forall j | 0 <= j < |text| ensures MatchAt(text, j, ChoiceMarker).None? && MatchAt(text, j, BoolMarker).None? {
      if j != i {
        NoMatchWithoutBracket(text, j, ChoiceMarker);
        NoMatchWithoutBracket(text, j, BoolMarker);
      }
    }
    SearchNoMatch(text, ChoiceMarker, 0);
    SearchNoMatch(text, BoolMarker, 0);
  }

  /** A marker that matches at the first `[` and runs to the end of the
      text is removed with everything after it. */
  lemma RemoveTrailingMarker(text: string, question: string, head: string, answer: string)
    requires Lower(head) == Head(ExpectedMarker)
    requires NoBracket(question)
    requires InlineAnswer(answer)
    requires text == question + head + " " + answer + "]"
    ensures RemoveAll(text, ExpectedMarker) == question
  {
    assert |head| == 10;
    MarkerLayout(text, question, head, answer, |question| + 11);
    ExpectedMarkerAfterQuestion(text, question, head, answer);
    assert RemoveFrom(text, ExpectedMarker, |text|) == [];
  }
}
