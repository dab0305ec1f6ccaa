/** Splitting a module's text into overlapping chunks for retrieval
    (chibi/services/chunking.py): the text is cleaned, split on the most
    natural boundary that gives several pieces, the pieces are merged into
    chunks of about `chunk_size` characters that overlap by
    `chunk_overlap`, and each chunk is given an index, an id and its
    position in the cleaned text. */
module Chunking {
  import opened Text
  import opened Wrappers

  /** `TextChunk`. */
  datatype TextChunk = TextChunk(text: string, chunkIndex: int, sourceId: string, sourceName: string,
                                 startChar: int, endChar: int)

  const ChunkInfix := "_chunk_"

  /** `TextChunk.chunk_id`. */
  function ChunkId(c: TextChunk): (id: string)
    ensures |c.sourceId| + |ChunkInfix| < |id|
    ensures id[..|c.sourceId|] == c.sourceId
    ensures id[|c.sourceId|..|c.sourceId| + |ChunkInfix|] == ChunkInfix
  {
    c.sourceId + ChunkInfix + IntToString(c.chunkIndex)
  }

  /** Two chunks of one source with non-negative indices share an id
      exactly when they share the index. */
  lemma ChunkIdInjective(a: TextChunk, b: TextChunk)
    requires a.sourceId == b.sourceId && a.chunkIndex >= 0 && b.chunkIndex >= 0
    ensures ChunkId(a) == ChunkId(b) <==> a.chunkIndex == b.chunkIndex
  {
    var n := |a.sourceId| + |ChunkInfix|;
    if ChunkId(a) == ChunkId(b) {
      assert ChunkId(a)[n..] == NatToString(a.chunkIndex);
      assert ChunkId(b)[n..] == NatToString(b.chunkIndex);
      NatToStringInjective(a.chunkIndex, b.chunkIndex);
    }
  }

  /** The chunker's settings; `TextChunker.__init__` stores them and
      nothing changes them afterwards. */
  datatype TextChunker = TextChunker(chunkSize: int, chunkOverlap: int, minChunkSize: int)

  const DefaultChunker := TextChunker(500, 100, 50)

  /** The boundaries tried, largest first; "" means cutting by size. */
  const Separators: seq<string> := ["\n\n", "\n", ". ", "? ", "! ", "; ", ", ", " ", ""]

  /** The stride of `_split_by_size`. */
  function Step(cfg: TextChunker): int {
    cfg.chunkSize - cfg.chunkOverlap
  }

  // ---------------------------------------------------------------------
  // _clean_text
  // ---------------------------------------------------------------------

  predicate IsSpaceOrTab(c: char) {
    c == ' ' || c == '\t'
  }

  /** `re.sub(r"[ \t]+", " ", s)`: every run of spaces and tabs becomes one
      space. Written character by character: a space or tab that follows
      a space or tab is dropped, the first of a run is written as ' '. */
  function CollapseSpaces(s: string): (r: string)
    ensures |r| <= |s|
  {
    if s == [] then []
    else
      var n := |s| - 1;
      var init := CollapseSpaces(s[..n]);
      if !IsSpaceOrTab(s[n]) then init + [s[n]]
      else if n > 0 && IsSpaceOrTab(s[n - 1]) then init
      else init + [' ']
  }

  /** `re.sub(r"\n{3,}", "\n\n", s)`: every run of three or more newlines
      becomes two. Written character by character: a newline that follows
      two newlines is dropped. */
  function CollapseNewlines(s: string): (r: string)
    ensures |r| <= |s|
  {
    if s == [] then []
    else
      var n := |s| - 1;
      var init := CollapseNewlines(s[..n]);
      if s[n] == '\n' && n >= 2 && s[n - 1] == '\n' && s[n - 2] == '\n' then init
      else init + [s[n]]
  }

  /** `_clean_text`. */
  function CleanText(s: string): string {
    Strip(CollapseNewlines(CollapseSpaces(s)))
  }

  predicate NoTabs(s: string) {
    forall i :: 0 <= i < |s| ==> s[i] != '\t'
  }

  predicate NoDoubleSpace(s: string) {
    forall i :: 0 < i < |s| ==> !(s[i - 1] == ' ' && s[i] == ' ')
  }

  predicate NoTripleNewline(s: string) {
    forall i :: 1 < i < |s| ==> !(s[i - 2] == '\n' && s[i - 1] == '\n' && s[i] == '\n')
  }

  /** What `_clean_text` guarantees of its result. */
  predicate IsClean(s: string) {
    NoTabs(s) && NoDoubleSpace(s) && NoTripleNewline(s) && IsStripped(s)
  }

  /** After collapsing there is no tab and no two spaces in a row, and
      the last character is the input's, with a tab written as a space. */
  lemma {:induction false} CollapseSpacesFacts(s: string)
    ensures NoTabs(CollapseSpaces(s)) && NoDoubleSpace(CollapseSpaces(s))
    ensures s != [] ==> (CollapseSpaces(s) != []
      && CollapseSpaces(s)[|CollapseSpaces(s)| - 1] == (if IsSpaceOrTab(s[|s| - 1]) then ' ' else s[|s| - 1]))
  {
    if s != [] {
      var n := |s| - 1;
      var init := s[..n];
      CollapseSpacesFacts(init);
      var ci := CollapseSpaces(init);
      var r := CollapseSpaces(s);
      if !IsSpaceOrTab(s[n]) {
        assert r == ci + [s[n]];
      } else if n > 0 && IsSpaceOrTab(s[n - 1]) {
        assert r == ci;
        assert init[n - 1] == s[n - 1];
      } else {
        assert r == ci + [' '];
        if n > 0 {
          assert init[n - 1] == s[n - 1];
        }
      }
    } else {
      assert CollapseSpaces(s) == [];
    }
  }

  /** A text with no tab and no two spaces in a row is left as it is. */
  lemma {:induction false} CollapseSpacesFixed(s: string)
    requires NoTabs(s) && NoDoubleSpace(s)
    ensures CollapseSpaces(s) == s
  {
    if s != [] {
      var n := |s| - 1;
      var init := s[..n];
      assert NoTabs(init) && NoDoubleSpace(init);
      CollapseSpacesFixed(init);
      if IsSpaceOrTab(s[n]) && n > 0 {
        assert s[n] == ' ';
        assert !IsSpaceOrTab(s[n - 1]);
      }
      assert s == init + [s[n]];
    } else {
      assert CollapseSpaces(s) == [];
    }
  }

  /** The last character is kept, and two newlines end the result only
      where they end the input. */
  lemma {:induction false} CollapseNewlinesEnd(s: string)
    ensures s != [] ==> CollapseNewlines(s) != [] && CollapseNewlines(s)[|CollapseNewlines(s)| - 1] == s[|s| - 1]
    ensures var r := CollapseNewlines(s);
      |r| >= 2 && r[|r| - 2] == '\n' && r[|r| - 1] == '\n' ==> |s| >= 2 && s[|s| - 2] == '\n' && s[|s| - 1] == '\n'
  {
    if s != [] {
      var n := |s| - 1;
      var init := s[..n];
      CollapseNewlinesEnd(init);
      var ci := CollapseNewlines(init);
      var r := CollapseNewlines(s);
      if s[n] == '\n' && n >= 2 && s[n - 1] == '\n' && s[n - 2] == '\n' {
        assert r == ci;
        assert init[n - 1] == s[n - 1];
      } else {
        assert r == ci + [s[n]];
        if n > 0 {
          assert init[n - 1] == s[n - 1];
          assert ci[|ci| - 1] == s[n - 1];
        }
      }
    } else {
      assert CollapseNewlines(s) == [];
    }
  }

  /** After collapsing there are no three newlines in a row, and tabs and
      double spaces are not introduced. */
  lemma {:induction false} CollapseNewlinesRuns(s: string)
    ensures NoTripleNewline(CollapseNewlines(s))
    ensures NoTabs(s) ==> NoTabs(CollapseNewlines(s))
    ensures NoDoubleSpace(s) ==> NoDoubleSpace(CollapseNewlines(s))
  {
    if s != [] {
      var n := |s| - 1;
      var init := s[..n];
      CollapseNewlinesRuns(init);
      CollapseNewlinesEnd(init);
      var ci := CollapseNewlines(init);
      var r := CollapseNewlines(s);
      if s[n] == '\n' && n >= 2 && s[n - 1] == '\n' && s[n - 2] == '\n' {
        assert r == ci;
        assert NoTabs(s) ==> NoTabs(init);
        assert NoDoubleSpace(s) ==> NoDoubleSpace(init);
      } else {
        assert r == ci + [s[n]];
        if n > 0 {
          assert init[n - 1] == s[n - 1];
          if n > 1 {
            assert init[n - 2] == s[n - 2];
          }
        }
        assert NoTabs(s) ==> NoTabs(init);
        assert NoDoubleSpace(s) ==> NoDoubleSpace(init);
      }
    } else {
      assert CollapseNewlines(s) == [];
    }
  }

  /** A text without three newlines in a row is left as it is. */
  lemma {:induction false} CollapseNewlinesFixed(s: string)
    requires NoTripleNewline(s)
    ensures CollapseNewlines(s) == s
  {
    if s != [] {
      var n := |s| - 1;
      var init := s[..n];
      assert NoTripleNewline(init);
      CollapseNewlinesFixed(init);
      assert s == init + [s[n]];
    } else {
      assert CollapseNewlines(s) == [];
    }
  }

  /** The three run properties hold of every slice of a text that has them. */
  lemma RunsOfSlice(s: string, i: nat, j: nat)
    requires i <= j <= |s| && NoTabs(s) && NoDoubleSpace(s) && NoTripleNewline(s)
    ensures NoTabs(s[i..j]) && NoDoubleSpace(s[i..j]) && NoTripleNewline(s[i..j])
  {
    var t := s[i..j];
    forall k | 0 < k < |t| ensures !(t[k - 1] == ' ' && t[k] == ' ') {
      assert t[k - 1] == s[i + k - 1] && t[k] == s[i + k];
    }
    forall k | 1 < k < |t| ensures !(t[k - 2] == '\n' && t[k - 1] == '\n' && t[k] == '\n') {
      assert t[k - 2] == s[i + k - 2] && t[k - 1] == s[i + k - 1] && t[k] == s[i + k];
    }
  }

  /** The cleaned text has no tab, no two spaces in a row, no three
      newlines in a row and no whitespace at either end; cleaning it again
      changes nothing. */
  lemma CleanTextFacts(s: string)
    ensures IsClean(CleanText(s))
    ensures CleanText(CleanText(s)) == CleanText(s)
  {
    var a := CollapseSpaces(s);
    CollapseSpacesFacts(s);
    var b := CollapseNewlines(a);
    CollapseNewlinesRuns(a);
    StripSlice(b);
    var i, j :| 0 <= i <= j <= |b| && Strip(b) == b[i..j] && IsBlank(b[..i]) && IsBlank(b[j..]);
    RunsOfSlice(b, i, j);
    var c := CleanText(s);
    assert IsStripped(c);
    CleanIsFixed(c);
  }

  /** A clean text is its own cleaning. */
  lemma CleanIsFixed(c: string)
    requires IsClean(c)
    ensures CleanText(c) == c
  {
    CollapseSpacesFixed(c);
    CollapseNewlinesFixed(c);
    StripOfStripped(c);
  }

  // ---------------------------------------------------------------------
  // _split_by_size
  // ---------------------------------------------------------------------

  /** `s[a:b]` for a non-negative `a`. */
  function Slice(s: string, a: nat, b: int): (r: string)
    ensures a <= PyIndex(b, |s|) ==> r == s[a..PyIndex(b, |s|)]
    ensures a > PyIndex(b, |s|) ==> r == []
  {
    PyDrop(PyTake(s, b), a)
  }

  /** Where the `k`-th window starts: `k` strides from 0. */
  function Start(cfg: TextChunker, k: nat): (i: int)
    ensures Step(cfg) >= 0 ==> i >= 0
  {
    if k == 0 then 0 else Start(cfg, k - 1) + Step(cfg)
  }

  /** With a positive stride the starts only grow. */
  lemma {:induction false} StartGrows(cfg: TextChunker, k: nat, w: nat)
    requires Step(cfg) > 0 && k <= w
    ensures Start(cfg, k) <= Start(cfg, w)
    decreases w
  {
    if k < w {
      StartGrows(cfg, k, w - 1);
    }
  }

  /** The `k`-th window, `text[i : i + chunk_size]` for `i` the `k`-th
      value of the range. */
  function Window(cfg: TextChunker, text: string, k: nat): string
    requires Step(cfg) > 0
  {
    Slice(text, Start(cfg, k), Start(cfg, k) + cfg.chunkSize)
  }

  /** The non-blank windows from the `k`-th on. */
  function WindowsFrom(cfg: TextChunker, text: string, k: nat): seq<string>
    requires Step(cfg) > 0
    decreases |text| - Start(cfg, k)
  {
    if Start(cfg, k) >= |text| then []
    else
      (if IsBlank(Window(cfg, text, k)) then [] else [Window(cfg, text, k)]) + WindowsFrom(cfg, text, k + 1)
  }

  /** One window of `WindowsFrom`. */
  lemma WindowsFromStep(cfg: TextChunker, text: string, k: nat)
    requires Step(cfg) > 0 && Start(cfg, k) < |text|
    ensures Start(cfg, k + 1) == Start(cfg, k) + Step(cfg)
    ensures WindowsFrom(cfg, text, k) ==
      (if IsBlank(Window(cfg, text, k)) then [] else [Window(cfg, text, k)]) + WindowsFrom(cfg, text, k + 1)
  {
  }

  /** The loop of `_split_by_size` past one window. */
  lemma SizeLoopStep(cfg: TextChunker, text: string, k: nat, chunks: seq<string>)
    requires Step(cfg) > 0 && Start(cfg, k) < |text|
    ensures Start(cfg, k + 1) == Start(cfg, k) + Step(cfg)
    ensures var w := Window(cfg, text, k);
      IsBlank(w) ==> chunks + WindowsFrom(cfg, text, k + 1) == chunks + WindowsFrom(cfg, text, k)
    ensures var w := Window(cfg, text, k);
      !IsBlank(w) ==> (chunks + [w]) + WindowsFrom(cfg, text, k + 1) == chunks + WindowsFrom(cfg, text, k)
  {
    WindowsFromStep(cfg, text, k);
  }

  /** What `_split_by_size` returns. A negative stride gives an empty
      range. */
  function SizePieces(cfg: TextChunker, text: string): seq<string>
    requires Step(cfg) != 0
  {
    if Step(cfg) < 0 then [] else WindowsFrom(cfg, text, 0)
  }

  /** Every piece from the `k`-th window on is a non-blank window that
      starts inside the text, at `k` or later. */
  lemma {:induction false} WindowsFromSound(cfg: TextChunker, text: string, k: nat)
    requires Step(cfg) > 0
    ensures forall m :: 0 <= m < |WindowsFrom(cfg, text, k)| ==>
      exists w :: (k <= w && Start(cfg, w) < |text| && !IsBlank(Window(cfg, text, w))
        && WindowsFrom(cfg, text, k)[m] == Window(cfg, text, w))
    decreases |text| - Start(cfg, k)
  {
    var r := WindowsFrom(cfg, text, k);
    if Start(cfg, k) < |text| {
      WindowsFromStep(cfg, text, k);
      WindowsFromSound(cfg, text, k + 1);
      var head := if IsBlank(Window(cfg, text, k)) then [] else [Window(cfg, text, k)];
      var rest := WindowsFrom(cfg, text, k + 1);
      assert r == head + rest;
      forall m | 0 <= m < |r|
        ensures exists w :: (k <= w && Start(cfg, w) < |text| && !IsBlank(Window(cfg, text, w))
          && r[m] == Window(cfg, text, w))
      {
        if m < |head| {
          assert r[m] == Window(cfg, text, k);
        } else {
          assert r[m] == rest[m - |head|];
        }
      }
    } else {
      assert r == [];
    }
  }

  /** Every non-blank window that starts inside the text, at `k` or
      later, is among the pieces from the `k`-th window on. */
  lemma {:induction false} WindowsFromComplete(cfg: TextChunker, text: string, k: nat, w: nat)
    requires Step(cfg) > 0 && k <= w && Start(cfg, w) < |text| && !IsBlank(Window(cfg, text, w))
    ensures Window(cfg, text, w) in WindowsFrom(cfg, text, k)
    decreases |text| - Start(cfg, k)
  {
    StartGrows(cfg, k, w);
    WindowsFromStep(cfg, text, k);
    var head := if IsBlank(Window(cfg, text, k)) then [] else [Window(cfg, text, k)];
    var rest := WindowsFrom(cfg, text, k + 1);
    assert WindowsFrom(cfg, text, k) == head + rest;
    if k < w {
      WindowsFromComplete(cfg, text, k + 1, w);
    }
  }

  /** A window of a non-negative size is at most `chunk_size` long. */
  lemma WindowLength(cfg: TextChunker, text: string, k: nat)
    requires Step(cfg) > 0 && cfg.chunkSize >= 0
    ensures |Window(cfg, text, k)| <= cfg.chunkSize
  {
  }

  /** `_split_by_size` keeps exactly the non-blank windows `text[i : i +
      chunk_size]` whose start `i` is a multiple of the stride inside the
      text; with a non-negative `chunk_size` each is at most that long. */
  lemma SizePiecesFacts(cfg: TextChunker, text: string)
    requires Step(cfg) > 0
    ensures forall m :: 0 <= m < |SizePieces(cfg, text)| ==>
      exists w :: (Start(cfg, w) < |text| && !IsBlank(Window(cfg, text, w))
        && SizePieces(cfg, text)[m] == Window(cfg, text, w))
    ensures forall w :: Start(cfg, w) < |text| && !IsBlank(Window(cfg, text, w)) ==>
      Window(cfg, text, w) in SizePieces(cfg, text)
    ensures forall m :: 0 <= m < |SizePieces(cfg, text)| ==>
      !IsBlank(SizePieces(cfg, text)[m])
      && (cfg.chunkSize >= 0 ==> |SizePieces(cfg, text)[m]| <= cfg.chunkSize)
  {
    var p := SizePieces(cfg, text);
    assert p == WindowsFrom(cfg, text, 0);
    WindowsFromSound(cfg, text, 0);
    forall w: nat | Start(cfg, w) < |text| && !IsBlank(Window(cfg, text, w))
      ensures Window(cfg, text, w) in p
    {
      WindowsFromComplete(cfg, text, 0, w);
    }
    forall m | 0 <= m < |p|
      ensures exists w :: (Start(cfg, w) < |text| && !IsBlank(Window(cfg, text, w)) && p[m] == Window(cfg, text, w))
      ensures !IsBlank(p[m]) && (cfg.chunkSize >= 0 ==> |p[m]| <= cfg.chunkSize)
    {
      var w :| 0 <= w && Start(cfg, w) < |text| && !IsBlank(Window(cfg, text, w)) && p[m] == Window(cfg, text, w);
      if cfg.chunkSize >= 0 {
        WindowLength(cfg, text, w);
      }
    }
  }

  /** The `ValueError` that `range` raises for a zero stride. */
  const ZeroStride := "range() arg 3 must not be zero"

  /** `_split_by_size` as its caller sees it: a zero stride raises, any
      other stride gives `SizePieces`. */
  function SizeSplit(cfg: TextChunker, text: string): Call<seq<string>> {
    if Step(cfg) == 0 then Raised(ZeroStride) else Returned(SizePieces(cfg, text))
  }

  /** `_split_by_size`. */
  method SplitBySize(cfg: TextChunker, text: string) returns (chunks: Call<seq<string>>)
    ensures chunks.Raised? <==> Step(cfg) == 0
    ensures Step(cfg) != 0 ==> chunks == Returned(SizePieces(cfg, text))
  {
    var step := cfg.chunkSize - cfg.chunkOverlap;
    if step == 0 {
      return Raised(ZeroStride);
    }
    var pieces := [];
    if step < 0 {
      return Returned(pieces);
    }
    var i := 0;
    ghost var k: nat := 0;
    while i < |text|
      invariant i == Start(cfg, k)
      invariant pieces + WindowsFrom(cfg, text, k) == WindowsFrom(cfg, text, 0)
      decreases |text| - i
    {
      var chunk := Slice(text, i, i + cfg.chunkSize);
      assert chunk == Window(cfg, text, k);
      SizeLoopStep(cfg, text, k, pieces);
      if !IsBlank(chunk) {
        pieces := pieces + [chunk];
      }
      i := i + step;
      k := k + 1;
    }
    assert pieces == WindowsFrom(cfg, text, 0);
    return Returned(pieces);
  }

  // ---------------------------------------------------------------------
  // _recursive_split
  // ---------------------------------------------------------------------

  /** `separators.index(sep)`: the first position holding `sep`. */
  function IndexOf(seps: seq<string>, sep: string): (i: nat)
    requires sep in seps
    ensures i < |seps| && seps[i] == sep
    ensures forall k :: 0 <= k < i ==> seps[k] != sep
  {
    if seps[0] == sep then 0 else 1 + IndexOf(seps[1..], sep)
  }

  /** `[s for s in splits if s.strip()]`. */
  function NonBlank(parts: seq<string>): (r: seq<string>)
    ensures forall k :: 0 <= k < |r| ==> !IsBlank(r[k]) && r[k] in parts
    ensures forall k :: 0 <= k < |parts| && !IsBlank(parts[k]) ==> parts[k] in r
  {
    if parts == [] then []
    else
      var n := |parts| - 1;
      var init := NonBlank(parts[..n]);
      assert forall k :: 0 <= k < n ==> parts[..n][k] == parts[k];
      if IsBlank(parts[n]) then init else init + [parts[n]]
  }

  /** `_recursive_split(text, seps)`; it raises when it reaches
      `_split_by_size` with a zero stride. */
  function RecursiveSplit(cfg: TextChunker, text: string, seps: seq<string>): Call<seq<string>>
    decreases |text|, 2, 0
  {
    if text == [] then Returned([])
    else if |text| <= cfg.chunkSize then Returned([text])
    else TrySeparators(cfg, text, seps, 0)
  }

  /** The loop over the separators, from the `j`-th on: the first
      separator that occurs in the text and leaves more than one non-blank
      piece decides the split; "" or running out of separators cuts by
      size. */
  function TrySeparators(cfg: TextChunker, text: string, seps: seq<string>, j: nat): Call<seq<string>>
    requires j <= |seps|
    decreases |text|, 1, |seps| - j
  {
    if j == |seps| || seps[j] == "" then SizeSplit(cfg, text)
    else if Contains(text, seps[j]) && |NonBlank(Split(text, seps[j]))| > 1 then
      var splits := NonBlank(Split(text, seps[j]));
      assert forall k :: 0 <= k < |splits| ==> |splits[k]| < |text|;
      SplitAll(cfg, splits, seps[IndexOf(seps, seps[j])..], |text|)
    else TrySeparators(cfg, text, seps, j + 1)
  }

  /** The loop over the pieces: a piece within `chunk_size` is kept, a
      longer one is split again with the separators from the current one
      on. Every piece is shorter than `bound`. The first raise ends the
      loop. */
  function SplitAll(cfg: TextChunker, splits: seq<string>, seps: seq<string>, bound: nat): Call<seq<string>>
    requires forall k :: 0 <= k < |splits| ==> |splits[k]| < bound
    decreases bound, 0, |splits|
  {
    if splits == [] then Returned([])
    else
      var head := if |splits[0]| <= cfg.chunkSize then Returned([splits[0]]) else RecursiveSplit(cfg, splits[0], seps);
      if head.Raised? then head
      else
        var tail := SplitAll(cfg, splits[1..], seps, bound);
        if tail.Raised? then tail else Returned(head.value + tail.value)
  }

  /** A result that, when it is returned, holds good pieces. */
  predicate GoodCall(cfg: TextChunker, r: Call<seq<string>>) {
    r.Returned? ==> GoodPieces(cfg, r.value)
  }

  /** Pieces that are not blank and, for a non-negative `chunk_size`, at
      most that long. */
  predicate GoodPieces(cfg: TextChunker, ps: seq<string>) {
    forall k :: 0 <= k < |ps| ==> !IsBlank(ps[k]) && (cfg.chunkSize >= 0 ==> |ps[k]| <= cfg.chunkSize)
  }

  lemma GoodPiecesAppend(cfg: TextChunker, a: seq<string>, b: seq<string>)
    requires GoodPieces(cfg, a) && GoodPieces(cfg, b)
    ensures GoodPieces(cfg, a + b)
  {
    forall k | 0 <= k < |a + b|
      ensures !IsBlank((a + b)[k]) && (cfg.chunkSize >= 0 ==> |(a + b)[k]| <= cfg.chunkSize)
    {
      if k < |a| {
        assert (a + b)[k] == a[k];
      } else {
        assert (a + b)[k] == b[k - |a|];
      }
    }
  }

  /** `_recursive_split` of a non-blank text gives non-blank pieces, each
      within `chunk_size` when that is not negative. */
  lemma {:induction false} RecursiveSplitGood(cfg: TextChunker, text: string, seps: seq<string>)
    requires !IsBlank(text)
    ensures GoodCall(cfg, RecursiveSplit(cfg, text, seps))
    decreases |text|, 2, 0
  {
    if |text| > cfg.chunkSize {
      TrySeparatorsGood(cfg, text, seps, 0);
    }
  }

  lemma {:induction false} TrySeparatorsGood(cfg: TextChunker, text: string, seps: seq<string>, j: nat)
    requires j <= |seps| && |text| > cfg.chunkSize
    ensures GoodCall(cfg, TrySeparators(cfg, text, seps, j))
    decreases |text|, 1, |seps| - j
  {
    if j == |seps| || seps[j] == "" {
      if Step(cfg) != 0 {
        SizePiecesGood(cfg, text);
      }
    } else if Contains(text, seps[j]) && |NonBlank(Split(text, seps[j]))| > 1 {
      var splits := NonBlank(Split(text, seps[j]));
      assert forall k :: 0 <= k < |splits| ==> |splits[k]| < |text|;
      SplitAllGood(cfg, splits, seps[IndexOf(seps, seps[j])..], |text|);
    } else {
      TrySeparatorsGood(cfg, text, seps, j + 1);
    }
  }

  lemma {:induction false} SplitAllGood(cfg: TextChunker, splits: seq<string>, seps: seq<string>, bound: nat)
    requires forall k :: 0 <= k < |splits| ==> |splits[k]| < bound && !IsBlank(splits[k])
    ensures GoodCall(cfg, SplitAll(cfg, splits, seps, bound))
    decreases bound, 0, |splits|
  {
    if splits != [] {
      var head := if |splits[0]| <= cfg.chunkSize then Returned([splits[0]]) else RecursiveSplit(cfg, splits[0], seps);
      if |splits[0]| > cfg.chunkSize {
        RecursiveSplitGood(cfg, splits[0], seps);
      }
      var tail := SplitAll(cfg, splits[1..], seps, bound);
      SplitAllGood(cfg, splits[1..], seps, bound);
      if head.Returned? && tail.Returned? {
        GoodPiecesAppend(cfg, head.value, tail.value);
      }
    }
  }

  /** The size pieces are good whatever the sign of the stride. */
  lemma SizePiecesGood(cfg: TextChunker, text: string)
    requires Step(cfg) != 0
    ensures GoodPieces(cfg, SizePieces(cfg, text))
  {
    if Step(cfg) > 0 {
      SizePiecesFacts(cfg, text);
    }
  }

  /** The two early answers of `_recursive_split`, whatever the stride. */
  lemma RecursiveSplitShort(cfg: TextChunker, text: string, seps: seq<string>)
    ensures text == [] ==> RecursiveSplit(cfg, text, seps) == Returned([])
    ensures text != [] && |text| <= cfg.chunkSize ==> RecursiveSplit(cfg, text, seps) == Returned([text])
  {
  }

  /** A raise that can come out of `_recursive_split`: only the zero
      stride's. */
  predicate OnlyZeroStride(cfg: TextChunker, r: Call<seq<string>>) {
    r.Raised? ==> Step(cfg) == 0 && r.message == ZeroStride
  }

  /** Only a zero stride makes `_recursive_split` raise. */
  lemma {:induction false} RecursiveSplitReturns(cfg: TextChunker, text: string, seps: seq<string>)
    ensures OnlyZeroStride(cfg, RecursiveSplit(cfg, text, seps))
    decreases |text|, 2, 0
  {
    if text != [] && |text| > cfg.chunkSize {
      TrySeparatorsReturns(cfg, text, seps, 0);
    }
  }

  lemma {:induction false} TrySeparatorsReturns(cfg: TextChunker, text: string, seps: seq<string>, j: nat)
    requires j <= |seps|
    ensures OnlyZeroStride(cfg, TrySeparators(cfg, text, seps, j))
    decreases |text|, 1, |seps| - j
  {
    if j == |seps| || seps[j] == "" {
    } else if Contains(text, seps[j]) && |NonBlank(Split(text, seps[j]))| > 1 {
      var splits := NonBlank(Split(text, seps[j]));
      assert forall k :: 0 <= k < |splits| ==> |splits[k]| < |text|;
      SplitAllReturns(cfg, splits, seps[IndexOf(seps, seps[j])..], |text|);
    } else {
      TrySeparatorsReturns(cfg, text, seps, j + 1);
    }
  }

  lemma {:induction false} SplitAllReturns(cfg: TextChunker, splits: seq<string>, seps: seq<string>, bound: nat)
    requires forall k :: 0 <= k < |splits| ==> |splits[k]| < bound
    ensures OnlyZeroStride(cfg, SplitAll(cfg, splits, seps, bound))
    decreases bound, 0, |splits|
  {
    if splits != [] {
      if |splits[0]| > cfg.chunkSize {
        RecursiveSplitReturns(cfg, splits[0], seps);
      }
      SplitAllReturns(cfg, splits[1..], seps, bound);
    }
  }

  /** With a zero stride, a text longer than `chunk_size` that no
      separator splits into several pieces reaches `_split_by_size` and
      raises. */
  lemma ZeroStrideRaises(cfg: TextChunker, text: string, seps: seq<string>)
    requires Step(cfg) == 0 && |text| > cfg.chunkSize && text != []
    requires forall j :: 0 <= j < |seps| && seps[j] != "" ==> !Contains(text, seps[j])
    ensures RecursiveSplit(cfg, text, seps) == Raised(ZeroStride)
  {
    TrySeparatorsRaise(cfg, text, seps, 0);
  }

  lemma {:induction false} TrySeparatorsRaise(cfg: TextChunker, text: string, seps: seq<string>, j: nat)
    requires Step(cfg) == 0 && j <= |seps|
    requires forall i :: j <= i < |seps| && seps[i] != "" ==> !Contains(text, seps[i])
    ensures TrySeparators(cfg, text, seps, j) == Raised(ZeroStride)
    decreases |seps| - j
  {
    if j < |seps| && seps[j] != "" {
      TrySeparatorsRaise(cfg, text, seps, j + 1);
    }
  }

  // ---------------------------------------------------------------------
  // _merge_and_overlap
  // ---------------------------------------------------------------------

  /** The loop state of `_merge_and_overlap`. */
  datatype Merging = Merging(result: seq<string>, current: string)

  /** One piece through the loop. */
  function MergeStep(cfg: TextChunker, m: Merging, piece: string): Merging {
    var chunk := Strip(piece);
    if chunk == [] then m
    else if |m.current| + |chunk| + 1 > cfg.chunkSize then
      var result := if m.current != [] then m.result + [Strip(m.current)] else m.result;
      if result != [] && cfg.chunkOverlap > 0 then
        Merging(result, PyDrop(result[|result| - 1], -cfg.chunkOverlap) + " " + chunk)
      else Merging(result, chunk)
    else if m.current != [] then Merging(m.result, m.current + " " + chunk)
    else Merging(m.result, chunk)
  }

  /** The loop state after all `pieces`. */
  function MergeAll(cfg: TextChunker, pieces: seq<string>): Merging {
    if pieces == [] then Merging([], "")
    else MergeStep(cfg, MergeAll(cfg, pieces[..|pieces| - 1]), pieces[|pieces| - 1])
  }

  /** `[c for c in result if len(c) >= min_chunk_size]`. */
  function LongEnough(parts: seq<string>, minLength: int): (r: seq<string>)
    ensures forall k :: 0 <= k < |r| ==> |r[k]| >= minLength && r[k] in parts
    ensures forall k :: 0 <= k < |parts| && |parts[k]| >= minLength ==> parts[k] in r
  {
    if parts == [] then []
    else
      var n := |parts| - 1;
      var init := LongEnough(parts[..n], minLength);
      assert forall k :: 0 <= k < n ==> parts[..n][k] == parts[k];
      if |parts[n]| >= minLength then init + [parts[n]] else init
  }

  /** What `_merge_and_overlap` returns: the saved chunks and the last
      one, without those shorter than `min_chunk_size`. */
  function Merged(cfg: TextChunker, pieces: seq<string>): seq<string> {
    if pieces == [] then []
    else
      var m := MergeAll(cfg, pieces);
      LongEnough(m.result + (if !IsBlank(m.current) then [Strip(m.current)] else []), cfg.minChunkSize)
  }

  /** A chunk as `_merge_and_overlap` saves it: stripped and not blank. */
  predicate IsSaved(c: string) {
    c != [] && IsStripped(c) && !IsBlank(c)
  }

  /** Text ending in a non-blank piece is not blank. */
  lemma NotBlankAfter(a: string, b: string)
    requires !IsBlank(b)
    ensures !IsBlank(a + b)
  {
    var i :| 0 <= i < |b| && !IsSpace(b[i]);
    assert (a + b)[|a| + i] == b[i];
  }

  /** Stripping a non-blank text saves it. */
  lemma StripSaves(s: string)
    requires !IsBlank(s)
    ensures IsSaved(Strip(s))
  {
    var r := Strip(s);
    assert !IsSpace(r[0]);
  }

  /** The loop's invariant: every saved chunk is stripped and not blank,
      and the chunk being built is empty or not blank. */
  predicate SavedState(m: Merging) {
    (forall k :: 0 <= k < |m.result| ==> IsSaved(m.result[k]))
    && (m.current == [] || !IsBlank(m.current))
  }

  /** Saving the chunk being built keeps the saved chunks saved. */
  lemma SaveCurrent(m: Merging)
    requires SavedState(m) && m.current != []
    ensures forall k :: 0 <= k < |m.result + [Strip(m.current)]| ==> IsSaved((m.result + [Strip(m.current)])[k])
  {
    StripSaves(m.current);
  }

  /** One piece through the loop keeps the invariant. */
  lemma MergeStepSaved(cfg: TextChunker, m: Merging, piece: string)
    requires SavedState(m)
    ensures SavedState(MergeStep(cfg, m, piece))
  {
    var chunk := Strip(piece);
    if chunk != [] {
      assert !IsBlank(piece);
      StripSaves(piece);
      if |m.current| + |chunk| + 1 > cfg.chunkSize {
        var result := if m.current != [] then m.result + [Strip(m.current)] else m.result;
        if m.current != [] {
          SaveCurrent(m);
        }
        if result != [] && cfg.chunkOverlap > 0 {
          NotBlankAfter(PyDrop(result[|result| - 1], -cfg.chunkOverlap) + " ", chunk);
        }
      } else if m.current != [] {
        NotBlankAfter(m.current + " ", chunk);
      }
    }
  }

  /** The invariant holds throughout the loop. */
  lemma {:induction false} MergeAllSaved(cfg: TextChunker, pieces: seq<string>)
    ensures SavedState(MergeAll(cfg, pieces))
  {
    if pieces != [] {
      var n := |pieces| - 1;
      MergeAllSaved(cfg, pieces[..n]);
      MergeStepSaved(cfg, MergeAll(cfg, pieces[..n]), pieces[n]);
    } else {
      assert MergeAll(cfg, pieces) == Merging([], "");
    }
  }

  /** Every chunk `_merge_and_overlap` returns is stripped, not blank and
      at least `min_chunk_size` long; and every saved chunk of that length
      is returned. */
  lemma MergedFacts(cfg: TextChunker, pieces: seq<string>)
    ensures forall k :: 0 <= k < |Merged(cfg, pieces)| ==>
      IsSaved(Merged(cfg, pieces)[k]) && |Merged(cfg, pieces)[k]| >= cfg.minChunkSize
    ensures pieces != [] ==> forall k :: (0 <= k < |MergeAll(cfg, pieces).result|
      && |MergeAll(cfg, pieces).result[k]| >= cfg.minChunkSize) ==>
      MergeAll(cfg, pieces).result[k] in Merged(cfg, pieces)
  {
    if pieces != [] {
      MergeAllSaved(cfg, pieces);
      var m := MergeAll(cfg, pieces);
      var last := if !IsBlank(m.current) then [Strip(m.current)] else [];
      if !IsBlank(m.current) {
        StripSaves(m.current);
      }
      var all := m.result + last;
      assert forall k :: 0 <= k < |all| ==> IsSaved(all[k]);
      forall k | 0 <= k < |m.result| && |m.result[k]| >= cfg.minChunkSize
        ensures m.result[k] in Merged(cfg, pieces)
      {
        assert all[k] == m.result[k];
      }
    }
  }

  /** `_merge_and_overlap`. */
  method MergeAndOverlap(cfg: TextChunker, chunks: seq<string>) returns (result: seq<string>)
    ensures result == Merged(cfg, chunks)
  {
    if chunks == [] {
      return [];
    }
    var current;
    result, current := MergeLoop(cfg, chunks);
    ghost var last := if !IsBlank(current) then [Strip(current)] else [];
    assert Merged(cfg, chunks) == LongEnough(result + last, cfg.minChunkSize);
    if !IsBlank(current) {
      result := result + [Strip(current)];
    } else {
      assert result == result + last;
    }
    result := LongEnough(result, cfg.minChunkSize);
  }

  /** The loop of `_merge_and_overlap`. */
  method MergeLoop(cfg: TextChunker, chunks: seq<string>) returns (result: seq<string>, current: string)
    ensures Merging(result, current) == MergeAll(cfg, chunks)
  {
    result := [];
    current := "";
    for i := 0 to |chunks|
      invariant Merging(result, current) == MergeAll(cfg, chunks[..i])
    {
      assert chunks[..i + 1][..i] == chunks[..i];
      result, current := Absorb(cfg, result, current, chunks[i]);
    }
    assert chunks[..|chunks|] == chunks;
  }

  /** The body of the loop of `_merge_and_overlap` for one piece. */
  method Absorb(cfg: TextChunker, result0: seq<string>, current0: string, piece: string)
    returns (result: seq<string>, current: string)
    ensures Merging(result, current) == MergeStep(cfg, Merging(result0, current0), piece)
  {
    result, current := result0, current0;
    var chunk := Strip(piece);
    if chunk == [] {
      return;
    }
    if |current| + |chunk| + 1 > cfg.chunkSize {
      if current != [] {
        result := result + [Strip(current)];
      }
      if result != [] && cfg.chunkOverlap > 0 {
        var overlapText := PyDrop(result[|result| - 1], -cfg.chunkOverlap);
        current := overlapText + " " + chunk;
      } else {
        current := chunk;
      }
    } else {
      if current != [] {
        current := current + " " + chunk;
      } else {
        current := chunk;
      }
    }
  }

  // ---------------------------------------------------------------------
  // chunk_text
  // ---------------------------------------------------------------------

  /** How many leading characters of a chunk are looked up in the text. */
  const LookupPrefix := 50

  /** The first `k >= i` at which `sub` occurs in `text`, or `fallback`. */
  function FirstFrom(text: string, sub: string, i: nat, fallback: int): int
    requires i <= |text|
    decreases |text| + 1 - i
  {
    if i + |sub| > |text| then fallback
    else if text[i..i + |sub|] == sub then i
    else FirstFrom(text, sub, i + 1, fallback)
  }

  /** Where `chunk_text` places a chunk: at `text.find(chunk[:50], pos)`,
      or at `pos` when that is -1. */
  function PlaceAt(text: string, chunk: string, pos: int): int {
    if pos > |text| then pos else FirstFrom(text, PyTake(chunk, LookupPrefix), PyIndex(pos, |text|), pos)
  }

  /** `FirstFrom` is `FindFrom` with -1 read as the fallback. */
  lemma {:induction false} FirstFromIsFind(text: string, sub: string, i: nat, fallback: int)
    requires i <= |text|
    ensures FirstFrom(text, sub, i, fallback) == if FindFrom(text, sub, i) == -1 then fallback else FindFrom(text, sub, i)
    decreases |text| + 1 - i
  {
    if i + |sub| <= |text| && text[i..i + |sub|] != sub {
      assert i < |text|;
      FirstFromIsFind(text, sub, i + 1, fallback);
    }
  }

  /** `PlaceAt` is Python's `find` with -1 read as the running position;
      so a chunk is placed at the running position or at an occurrence of
      its first 50 characters at or after it. */
  lemma PlaceAtIsFind(text: string, chunk: string, pos: int)
    ensures var found := PyFind(text, PyTake(chunk, LookupPrefix), pos);
      PlaceAt(text, chunk, pos) == if found == -1 then pos else found
    ensures var start := PlaceAt(text, chunk, pos);
      start == pos || (start >= PyIndex(pos, |text|) && OccursAt(text, PyTake(chunk, LookupPrefix), start))
  {
    if pos <= |text| {
      FirstFromIsFind(text, PyTake(chunk, LookupPrefix), PyIndex(pos, |text|), pos);
    } else {
      var sub := PyTake(chunk, LookupPrefix);
      if |sub| > 0 {
        assert FindFrom(text, sub, |text|) == -1;
      }
    }
  }

  /** The chunks for `merged[i..]`, the running position being `pos`. */
  function ChunksFrom(cfg: TextChunker, text: string, merged: seq<string>, sourceId: string, sourceName: string,
                      i: nat, pos: int): seq<TextChunk>
    requires i <= |merged|
    decreases |merged| - i
  {
    if i == |merged| then []
    else
      var start := PlaceAt(text, merged[i], pos);
      [TextChunk(merged[i], i, sourceId, sourceName, start, start + |merged[i]|)]
        + ChunksFrom(cfg, text, merged, sourceId, sourceName, i + 1, start + |merged[i]| - cfg.chunkOverlap)
  }

  /** What `chunk_text` returns, or the error it raises. */
  function Chunks(cfg: TextChunker, text: string, sourceId: string, sourceName: string): Call<seq<TextChunk>>
  {
    if IsBlank(text) then Returned([])
    else
      var cleaned := CleanText(text);
      var raw := RecursiveSplit(cfg, cleaned, Separators);
      if raw.Raised? then Raised(raw.message)
      else Returned(ChunksFrom(cfg, cleaned, Merged(cfg, raw.value), sourceId, sourceName, 0, 0))
  }

  /** One chunk of `ChunksFrom`. */
  lemma ChunksFromStep(cfg: TextChunker, text: string, merged: seq<string>, sourceId: string, sourceName: string,
                       i: nat, pos: int)
    requires i < |merged|
    ensures var start := PlaceAt(text, merged[i], pos);
      ChunksFrom(cfg, text, merged, sourceId, sourceName, i, pos)
      == [TextChunk(merged[i], i, sourceId, sourceName, start, start + |merged[i]|)]
        + ChunksFrom(cfg, text, merged, sourceId, sourceName, i + 1, start + |merged[i]| - cfg.chunkOverlap)
  {
  }

  /** The chunks for `merged[i..]` carry those texts with the indices `i`
      on, the given source, and an end `len(text)` after the start. */
  lemma {:induction false} ChunksFromFields(cfg: TextChunker, text: string, merged: seq<string>, sourceId: string,
                                           sourceName: string, i: nat, pos: int)
    requires i <= |merged|
    ensures var r := ChunksFrom(cfg, text, merged, sourceId, sourceName, i, pos);
      |r| == |merged| - i
      && forall k :: 0 <= k < |r| ==>
        r[k].text == merged[i + k] && r[k].chunkIndex == i + k
        && r[k].sourceId == sourceId && r[k].sourceName == sourceName
        && r[k].endChar == r[k].startChar + |r[k].text|
    decreases |merged| - i
  {
    if i < |merged| {
      var start := PlaceAt(text, merged[i], pos);
      ChunksFromStep(cfg, text, merged, sourceId, sourceName, i, pos);
      ChunksFromFields(cfg, text, merged, sourceId, sourceName, i + 1, start + |merged[i]| - cfg.chunkOverlap);
    } else {
      assert ChunksFrom(cfg, text, merged, sourceId, sourceName, i, pos) == [];
    }
  }

  /** The first chunk is placed from `pos`, and each later one from the
      previous chunk's end less the overlap. */
  lemma {:induction false} ChunksFromPlaced(cfg: TextChunker, text: string, merged: seq<string>, sourceId: string,
                                           sourceName: string, i: nat, pos: int)
    requires i <= |merged|
    ensures var r := ChunksFrom(cfg, text, merged, sourceId, sourceName, i, pos);
      (|r| > 0 ==> r[0].startChar == PlaceAt(text, merged[i], pos) && r[0].text == merged[i])
      && (forall k :: 0 < k < |r| ==>
        r[k].startChar == PlaceAt(text, r[k].text, r[k - 1].endChar - cfg.chunkOverlap))
    decreases |merged| - i
  {
    if i < |merged| {
      var start := PlaceAt(text, merged[i], pos);
      var next := start + |merged[i]| - cfg.chunkOverlap;
      ChunksFromStep(cfg, text, merged, sourceId, sourceName, i, pos);
      ChunksFromPlaced(cfg, text, merged, sourceId, sourceName, i + 1, next);
      var r := ChunksFrom(cfg, text, merged, sourceId, sourceName, i, pos);
      var rest := ChunksFrom(cfg, text, merged, sourceId, sourceName, i + 1, next);
      forall k | 0 < k < |r|
        ensures r[k].startChar == PlaceAt(text, r[k].text, r[k - 1].endChar - cfg.chunkOverlap)
      {
        assert r[k] == rest[k - 1];
        if k > 1 {
          assert r[k - 1] == rest[k - 2];
        } else {
          assert r[k - 1].endChar - cfg.chunkOverlap == next;
        }
      }
    } else {
      assert ChunksFrom(cfg, text, merged, sourceId, sourceName, i, pos) == [];
    }
  }

  /** `chunk_text`: nothing for a blank text; otherwise one chunk per
      merged chunk of the cleaned text, numbered from 0, each non-blank,
      stripped and at least `min_chunk_size` long, ending `len(text)`
      after its start, with the id `source_id + "_chunk_" + index`. */
  lemma ChunksFacts(cfg: TextChunker, text: string, sourceId: string, sourceName: string)
    ensures IsBlank(text) ==> Chunks(cfg, text, sourceId, sourceName) == Returned([])
    ensures var c := Chunks(cfg, text, sourceId, sourceName);
      c.Returned? ==> forall k :: 0 <= k < |c.value| ==>
        c.value[k].chunkIndex == k && c.value[k].sourceId == sourceId && c.value[k].sourceName == sourceName
        && IsSaved(c.value[k].text) && |c.value[k].text| >= cfg.minChunkSize
        && c.value[k].endChar == c.value[k].startChar + |c.value[k].text|
        && ChunkId(c.value[k]) == sourceId + ChunkInfix + NatToString(k)
    ensures !IsBlank(text) ==> var raw := RecursiveSplit(cfg, CleanText(text), Separators);
      (Chunks(cfg, text, sourceId, sourceName).Raised? <==> raw.Raised?)
      && (raw.Returned? ==> |Chunks(cfg, text, sourceId, sourceName).value| == |Merged(cfg, raw.value)|)
  {
    if !IsBlank(text) {
      var cleaned := CleanText(text);
      var raw := RecursiveSplit(cfg, cleaned, Separators);
      if raw.Returned? {
        var merged := Merged(cfg, raw.value);
        ChunksFromFields(cfg, cleaned, merged, sourceId, sourceName, 0, 0);
        MergedFacts(cfg, raw.value);
      }
    }
  }

  /** `chunk_text` raises only for a zero stride, and then only when some
      piece of a non-blank text is cut by size. */
  lemma ChunksRaiseOnlyForZeroStride(cfg: TextChunker, text: string, sourceId: string, sourceName: string)
    ensures Step(cfg) != 0 ==> Chunks(cfg, text, sourceId, sourceName).Returned?
    ensures Chunks(cfg, text, sourceId, sourceName).Raised? ==> Chunks(cfg, text, sourceId, sourceName).message == ZeroStride
  {
    if !IsBlank(text) {
      RecursiveSplitReturns(cfg, CleanText(text), Separators);
    }
  }

  /** Whatever the stride, a non-blank text that cleans to at most
      `chunk_size` characters is chunked without raising. */
  lemma ShortTextChunksAtAnyStride(cfg: TextChunker, text: string, sourceId: string, sourceName: string)
    requires !IsBlank(text) && |CleanText(text)| <= cfg.chunkSize
    ensures Chunks(cfg, text, sourceId, sourceName).Returned?
  {
    RecursiveSplitShort(cfg, CleanText(text), Separators);
  }

  /** `chunk_text`. */
  method ChunkText(cfg: TextChunker, text: string, sourceId: string, sourceName: string)
    returns (result: Call<seq<TextChunk>>)
    ensures result == Chunks(cfg, text, sourceId, sourceName)
  {
    if IsBlank(text) {
      return Returned([]);
    }
    var cleaned := CleanText(text);
    var raw := RecursiveSplit(cfg, cleaned, Separators);
    if raw.Raised? {
      return Raised(raw.message);
    }
    var merged := MergeAndOverlap(cfg, raw.value);
    var placed := PlaceChunks(cfg, cleaned, merged, sourceId, sourceName);
    result := Returned(placed);
  }

  /** The loop of `chunk_text` that numbers and places the chunks. */
  method PlaceChunks(cfg: TextChunker, text: string, merged: seq<string>, sourceId: string, sourceName: string)
    returns (result: seq<TextChunk>)
    ensures result == ChunksFrom(cfg, text, merged, sourceId, sourceName, 0, 0)
  {
    result := [];
    var currentPos := 0;
    for i := 0 to |merged|
      invariant result + ChunksFrom(cfg, text, merged, sourceId, sourceName, i, currentPos)
        == ChunksFrom(cfg, text, merged, sourceId, sourceName, 0, 0)
    {
      var startPos := PyFind(text, PyTake(merged[i], LookupPrefix), currentPos);
      if startPos == -1 {
        startPos := currentPos;
      }
      PlaceAtIsFind(text, merged[i], currentPos);
      var chunk := TextChunk(merged[i], i, sourceId, sourceName, startPos, startPos + |merged[i]|);
      ChunksFromStep(cfg, text, merged, sourceId, sourceName, i, currentPos);
      result := result + [chunk];
      currentPos := startPos + |merged[i]| - cfg.chunkOverlap;
    }
  }
}
