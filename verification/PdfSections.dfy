/** pdf_parser.py: grouping page text into sections by headings, and cutting long sections into chunks. */
module PdfSections {
  import opened Wrappers
  import opened PyText
  import opened RawValues

  /** A word as pdfplumber reports it, with the verdict of the font heuristic. */
  datatype Word = Word(text: string, heading: bool)

  datatype Page = Page(words: seq<Word>, text: string)

  datatype Parsed = Parsed(title: string, content: string, first: int, last: int)

  // ------------------------------------------------------ the lines of a document

  /** A non-blank line, stripped, with its page number and whether it is taken for a heading. */
  datatype Line = Line(text: string, page: nat, heading: bool)

  function HeadingWords(words: seq<Word>): set<string> {
    set w | w in words && w.heading :: w.text
  }

  predicate IsHeadingLine(line: string, headings: set<string>) {
    (exists h | h in headings :: Contains(line, h)) && |line| < 120
  }

  function LinesOf(texts: seq<string>, page: nat, headings: set<string>): seq<Line> {
    if texts == [] then []
    else
      var n := |texts| - 1;
      var line := Strip(texts[n]);
      LinesOf(texts[..n], page, headings)
      + if line == "" then [] else [Line(line, page, IsHeadingLine(line, headings))]
  }

  function PageLines(page: Page, number: nat): seq<Line> {
    LinesOf(Split(page.text, "\n"), number, HeadingWords(page.words))
  }

  /** All lines in order; pages count from one. */
  function Lines(pages: seq<Page>): seq<Line> {
    if pages == [] then []
    else
      var n := |pages| - 1;
      Lines(pages[..n]) + PageLines(pages[n], |pages|)
  }

  // ---------------------------------------------------------------- grouping

  /** A section before its text is joined and cleaned. */
  datatype Section = Section(title: string, lines: seq<string>, first: nat, last: nat)

  datatype State = State(sections: seq<Section>, title: string, lines: seq<string>, start: nat)

  const INTRODUCTION := "Introduction"

  function Start(): State {
    State([], INTRODUCTION, [], 1)
  }

  function Flush(st: State, page: nat): seq<Section> {
    if st.lines == [] then st.sections else st.sections + [Section(st.title, st.lines, st.start, page)]
  }

  function Step(st: State, line: Line): State {
    if line.heading then State(Flush(st, line.page), line.text, [], line.page)
    else st.(lines := st.lines + [line.text])
  }

  function Run(lines: seq<Line>): State {
    if lines == [] then Start() else Step(Run(lines[..|lines| - 1]), lines[|lines| - 1])
  }

  function Grouped(lines: seq<Line>, pages: nat): seq<Section> {
    Flush(Run(lines), pages)
  }

  /** The texts of the lines that are not headings. */
  function Body(lines: seq<Line>): seq<string> {
    if lines == [] then []
    else
      var n := |lines| - 1;
      Body(lines[..n]) + if lines[n].heading then [] else [lines[n].text]
  }

  function AllLines(sections: seq<Section>): seq<string> {
    if sections == [] then [] else AllLines(sections[..|sections| - 1]) + sections[|sections| - 1].lines
  }

  lemma {:induction false} FlushLines(st: State, page: nat)
    ensures AllLines(Flush(st, page)) == AllLines(st.sections) + st.lines
  {
    if st.lines != [] {
      var flushed := Flush(st, page);
      assert flushed[..|flushed| - 1] == st.sections;
    }
  }

  /** Nothing is lost and nothing is added: section by section, the lines are the non-heading lines in order. */
  lemma {:induction false} GroupingConserves(lines: seq<Line>, pages: nat)
    ensures AllLines(Grouped(lines, pages)) == Body(lines)
  {
    RunConserves(lines);
    FlushLines(Run(lines), pages);
  }

  lemma {:induction false} RunConserves(lines: seq<Line>)
    ensures AllLines(Run(lines).sections) + Run(lines).lines == Body(lines)
  {
    if lines != [] {
      var n := |lines| - 1;
      var st := Run(lines[..n]);
      RunConserves(lines[..n]);
      FlushLines(st, lines[n].page);
      assert AllLines(st.sections) + (st.lines + [lines[n].text]) == AllLines(st.sections) + st.lines + [lines[n].text];
    }
  }

  // ----------------------------------------------- where a section comes from

  /** The run of lines from p up to e holds no heading. */
  predicate Plain(lines: seq<Line>, p: nat, e: nat)
    requires p <= e <= |lines|
  {
    forall k | p <= k < e :: !lines[k].heading
  }

  predicate TextsAre(lines: seq<Line>, p: nat, e: nat, texts: seq<string>)
    requires p <= e <= |lines|
  {
    |texts| == e - p && forall k | p <= k < e :: texts[k - p] == lines[k].text
  }

  /** The title and first page of a run that begins at p: those of the heading before it. */
  predicate Opens(lines: seq<Line>, p: nat, title: string, first: nat)
    requires p <= |lines|
  {
    if p == 0 then title == INTRODUCTION && first == 1
    else lines[p - 1].heading && title == lines[p - 1].text && first == lines[p - 1].page
  }

  /** The last page of a run that ends before e: that of the heading there, or the last page of all. */
  predicate Ends(lines: seq<Line>, e: nat, last: nat, pages: nat)
    requires e <= |lines|
  {
    if e == |lines| then last == pages else lines[e].heading && last == lines[e].page
  }

  /** The section is the whole run of lines from p to the next heading, named after the heading before it. */
  predicate Placed(lines: seq<Line>, s: Section, p: nat, pages: nat) {
    var e := p + |s.lines|;
    && s.lines != [] && e <= |lines|
    && Plain(lines, p, e) && TextsAre(lines, p, e, s.lines)
    && Opens(lines, p, s.title, s.first) && Ends(lines, e, s.last, pages)
  }

  /** Each section lies at its position, and the next one begins after the heading that ends it. */
  predicate AllPlaced(lines: seq<Line>, sections: seq<Section>, at: seq<nat>, pages: nat) {
    && |at| == |sections|
    && (forall k | 0 <= k < |sections| :: Placed(lines, sections[k], at[k], pages))
    && (forall k, l | 0 <= k < l < |sections| :: at[k] + |sections[k].lines| < at[l])
  }

  /** A section closed by a heading stays placed when lines are added. */
  lemma {:induction false} PlacedStill(lines: seq<Line>, line: Line, s: Section, p: nat, pages: nat)
    requires Placed(lines, s, p, pages) && p + |s.lines| < |lines|
    ensures Placed(lines + [line], s, p, pages)
  {
    var all, e := lines + [line], p + |s.lines|;
    assert forall k | 0 <= k <= e :: all[k] == lines[k];
  }

  /** What the scan knows after each line: closed sections are placed, and the open run begins at `p`. */
  predicate Tracks(lines: seq<Line>, st: State, at: seq<nat>, p: nat, pages: nat) {
    && AllPlaced(lines, st.sections, at, pages)
    && EndBefore(st.sections, at, p)
    && p + |st.lines| == |lines|
    && Plain(lines, p, |lines|) && TextsAre(lines, p, |lines|, st.lines) && Opens(lines, p, st.title, st.start)
  }

  lemma {:induction false} TracksOlder(lines: seq<Line>, line: Line, st: State, at: seq<nat>, p: nat, pages: nat)
    requires Tracks(lines, st, at, p, pages)
    ensures AllPlaced(lines + [line], st.sections, at, pages)
  {
    forall k | 0 <= k < |at| ensures Placed(lines + [line], st.sections[k], at[k], pages) {
      PlacedStill(lines, line, st.sections[k], at[k], pages);
    }
  }

  lemma {:induction false} TracksPlain(lines: seq<Line>, line: Line, st: State, at: seq<nat>, p: nat, pages: nat)
    requires Tracks(lines, st, at, p, pages) && !line.heading
    ensures Tracks(lines + [line], Step(st, line), at, p, pages)
  {
    TracksOlder(lines, line, st, at, p, pages);
    var all := lines + [line];
    assert forall k | 0 <= k < |lines| :: all[k] == lines[k];
  }

  /** A heading closes the open run. */
  lemma {:induction false} OpenRunPlaced(lines: seq<Line>, line: Line, st: State, at: seq<nat>, p: nat, pages: nat)
    requires Tracks(lines, st, at, p, pages) && line.heading && st.lines != []
    ensures Placed(lines + [line], Section(st.title, st.lines, st.start, line.page), p, pages)
  {
    var all := lines + [line];
    assert forall k | 0 <= k < |lines| :: all[k] == lines[k];
  }

  /** All runs end before line number e. */
  predicate EndBefore(sections: seq<Section>, at: seq<nat>, e: nat) {
    |at| == |sections| && forall k | 0 <= k < |at| :: at[k] + |sections[k].lines| < e
  }

  lemma {:induction false} AllPlacedAdd(lines: seq<Line>, sections: seq<Section>, at: seq<nat>, s: Section, p: nat,
                                        pages: nat)
    requires AllPlaced(lines, sections, at, pages) && Placed(lines, s, p, pages) && EndBefore(sections, at, p)
    ensures AllPlaced(lines, sections + [s], at + [p], pages)
    ensures EndBefore(sections + [s], at + [p], p + |s.lines| + 1)
  {
  }

  lemma {:induction false} FlushPlaced(lines: seq<Line>, line: Line, st: State, at: seq<nat>, p: nat, pages: nat)
    requires Tracks(lines, st, at, p, pages) && line.heading
    ensures var longer := if st.lines == [] then at else at + [p];
            && AllPlaced(lines + [line], Flush(st, line.page), longer, pages)
            && EndBefore(Flush(st, line.page), longer, |lines| + 1)
  {
    TracksOlder(lines, line, st, at, p, pages);
    if st.lines != [] {
      OpenRunPlaced(lines, line, st, at, p, pages);
      AllPlacedAdd(lines + [line], st.sections, at, Section(st.title, st.lines, st.start, line.page), p, pages);
    }
  }

  /** After a heading the open run is empty. */
  lemma {:induction false} TracksEmpty(lines: seq<Line>, sections: seq<Section>, at: seq<nat>, pages: nat)
    requires lines != [] && lines[|lines| - 1].heading
    requires AllPlaced(lines, sections, at, pages) && EndBefore(sections, at, |lines|)
    ensures Tracks(lines, State(sections, lines[|lines| - 1].text, [], lines[|lines| - 1].page), at, |lines|, pages)
  {
  }

  lemma {:induction false} TracksHeading(lines: seq<Line>, line: Line, st: State, at: seq<nat>, p: nat, pages: nat)
    requires Tracks(lines, st, at, p, pages) && line.heading
    ensures Tracks(lines + [line], Step(st, line), if st.lines == [] then at else at + [p], |lines| + 1, pages)
  {
    FlushPlaced(lines, line, st, at, p, pages);
    TracksEmpty(lines + [line], Flush(st, line.page), if st.lines == [] then at else at + [p], pages);
  }

  lemma {:induction false} RunTracks(lines: seq<Line>, pages: nat) returns (at: seq<nat>, p: nat)
    ensures Tracks(lines, Run(lines), at, p, pages)
  {
    if lines == [] {
      at, p := [], 0;
    } else {
      var n := |lines| - 1;
      var init, line := lines[..n], lines[n];
      assert lines == init + [line];
      at, p := RunTracks(init, pages);
      if line.heading {
        TracksHeading(init, line, Run(init), at, p, pages);
        at, p := if Run(init).lines == [] then at else at + [p], n + 1;
      } else {
        TracksPlain(init, line, Run(init), at, p, pages);
      }
    }
  }

  /** Every section is a whole run of lines between two headings, in document order. */
  lemma {:induction false} SectionsArePlaced(lines: seq<Line>, pages: nat) returns (at: seq<nat>)
    ensures AllPlaced(lines, Grouped(lines, pages), at, pages)
  {
    var p;
    at, p := RunTracks(lines, pages);
    if Run(lines).lines != [] {
      at := at + [p];
    }
  }

  /** Line numbers of pages never go back and lie in 1..pages. */
  predicate Numbered(lines: seq<Line>, pages: nat) {
    && (forall k | 0 <= k < |lines| :: 1 <= lines[k].page <= pages)
    && (forall k, l | 0 <= k < l < |lines| :: lines[k].page <= lines[l].page)
  }

  lemma {:induction false} LinesOfPage(texts: seq<string>, page: nat, headings: set<string>)
    ensures forall l | l in LinesOf(texts, page, headings) :: l.page == page
  {
    if texts != [] {
      LinesOfPage(texts[..|texts| - 1], page, headings);
    }
  }

  lemma {:induction false} LinesNumbered(pages: seq<Page>)
    ensures Numbered(Lines(pages), |pages|)
  {
    if pages != [] {
      var n := |pages| - 1;
      LinesNumbered(pages[..n]);
      LinesOfPage(Split(pages[n].text, "\n"), |pages|, HeadingWords(pages[n].words));
      var older, newer := Lines(pages[..n]), PageLines(pages[n], |pages|);
      assert forall l | l in newer :: l.page == |pages|;
      assert forall k | 0 <= k < |newer| :: newer[k] in newer;
    }
  }

  /** Page ranges lie in the document, run forwards, and follow one another. */
  predicate GoodRanges(sections: seq<Section>, pages: nat) {
    && (forall k | 0 <= k < |sections| :: 1 <= sections[k].first <= sections[k].last <= pages)
    && (forall k, l | 0 <= k < l < |sections| :: sections[k].last <= sections[l].first)
  }

  lemma {:induction false} PlacedRange(lines: seq<Line>, s: Section, p: nat, pages: nat)
    requires Numbered(lines, pages) && Placed(lines, s, p, pages)
    ensures 1 <= s.first <= s.last <= pages
  {
    var e := p + |s.lines|;
    assert lines[p].page >= 1;
  }

  lemma {:induction false} RangesInOrder(lines: seq<Line>, pages: nat)
    requires Numbered(lines, pages)
    ensures GoodRanges(Grouped(lines, pages), pages)
  {
    var sections := Grouped(lines, pages);
    var at := SectionsArePlaced(lines, pages);
    forall k | 0 <= k < |sections| ensures 1 <= sections[k].first <= sections[k].last <= pages {
      PlacedRange(lines, sections[k], at[k], pages);
    }
    forall k, l | 0 <= k < l < |sections| ensures sections[k].last <= sections[l].first {
      assert Placed(lines, sections[k], at[k], pages) && Placed(lines, sections[l], at[l], pages);
      var e := at[k] + |sections[k].lines|;
      assert e <= at[l] - 1;
    }
  }

  // -------------------------------------------------------------- the result

  function Cleaned(sections: seq<Section>, clean: string -> string): seq<Parsed> {
    if sections == [] then []
    else
      var n := |sections| - 1;
      var s := sections[n];
      Cleaned(sections[..n], clean) + [Parsed(s.title, clean(Join(s.lines, "\n")), s.first, s.last)]
  }

  function CleanPages(pages: seq<Page>, clean: string -> string): seq<string> {
    seq(|pages|, i requires 0 <= i < |pages| => clean(pages[i].text))
  }

  /** When no section was found, the whole document is one. */
  function Extracted(pages: seq<Page>, clean: string -> string): seq<Parsed> {
    var sections := Cleaned(Grouped(Lines(pages), |pages|), clean);
    if sections == [] then [Parsed("Document Content", Join(CleanPages(pages, clean), "\n"), 1, |pages|)] else sections
  }

  predicate RangesOk(sections: seq<Parsed>, pages: nat) {
    && (forall k | 0 <= k < |sections| :: 1 <= sections[k].first <= sections[k].last <= pages)
    && (forall k, l | 0 <= k < l < |sections| :: sections[k].last <= sections[l].first)
  }

  lemma {:induction false} CleanedKeeps(sections: seq<Section>, clean: string -> string)
    ensures |Cleaned(sections, clean)| == |sections|
    ensures forall k | 0 <= k < |sections| ::
              Cleaned(sections, clean)[k]
              == Parsed(sections[k].title, clean(Join(sections[k].lines, "\n")), sections[k].first, sections[k].last)
  {
    if sections != [] {
      CleanedKeeps(sections[..|sections| - 1], clean);
    }
  }

  lemma {:induction false} CleanedRanges(sections: seq<Section>, clean: string -> string, pages: nat)
    requires GoodRanges(sections, pages)
    ensures RangesOk(Cleaned(sections, clean), pages)
  {
    CleanedKeeps(sections, clean);
    var cleaned := Cleaned(sections, clean);
    assert forall k | 0 <= k < |cleaned| ::
        cleaned[k].first == sections[k].first && cleaned[k].last == sections[k].last;
  }

  /** There is always a section, and the ranges are proper exactly when there is a page at all. */
  lemma {:induction false} AlwaysASection(pages: seq<Page>, clean: string -> string)
    ensures Extracted(pages, clean) != []
    ensures RangesOk(Extracted(pages, clean), |pages|) <==> pages != []
  {
    var grouped := Grouped(Lines(pages), |pages|);
    LinesNumbered(pages);
    RangesInOrder(Lines(pages), |pages|);
    CleanedRanges(grouped, clean, |pages|);
    if pages == [] {
      assert grouped == [];
      assert Extracted(pages, clean)[0].last == 0;
    }
  }

  /** What the nested loop has built, with the current_* variables. */
  predicate Holds(st: State, sections: seq<Parsed>, title: string, lines: seq<string>, start: nat,
                  clean: string -> string) {
    sections == Cleaned(st.sections, clean) && title == st.title && lines == st.lines && start == st.start
  }

  lemma {:induction false} CleanedFlush(st: State, page: nat, clean: string -> string)
    ensures Cleaned(Flush(st, page), clean)
            == Cleaned(st.sections, clean)
               + if st.lines == [] then [] else [Parsed(st.title, clean(Join(st.lines, "\n")), st.start, page)]
  {
    if st.lines != [] {
      var flushed := Flush(st, page);
      assert flushed[..|flushed| - 1] == st.sections;
    }
  }

  /** Running on from a state; the loops see the lines page by page. */
  function RunFrom(st: State, lines: seq<Line>): State {
    if lines == [] then st else Step(RunFrom(st, lines[..|lines| - 1]), lines[|lines| - 1])
  }

  lemma {:induction false} RunAppend(a: seq<Line>, b: seq<Line>)
    ensures Run(a + b) == RunFrom(Run(a), b)
  {
    if b == [] {
      assert a + b == a;
    } else {
      var n := |b| - 1;
      assert (a + b)[..|a + b| - 1] == a + b[..n];
      RunAppend(a, b[..n]);
    }
  }

  lemma {:induction false} LinesOfStep(texts: seq<string>, i: nat, page: nat, headings: set<string>, st: State)
    requires i < |texts|
    ensures var line := Strip(texts[i]);
            RunFrom(st, LinesOf(texts[..i + 1], page, headings))
            == if line == "" then RunFrom(st, LinesOf(texts[..i], page, headings))
               else Step(RunFrom(st, LinesOf(texts[..i], page, headings)),
                         Line(line, page, IsHeadingLine(line, headings)))
  {
    assert texts[..i + 1][..i] == texts[..i];
    var older := LinesOf(texts[..i], page, headings);
    var line := Strip(texts[i]);
    if line == "" {
      assert older + [] == older;
    } else {
      var all := older + [Line(line, page, IsHeadingLine(line, headings))];
      assert all[..|all| - 1] == older;
    }
  }

  lemma {:induction false} PageStep(pages: seq<Page>, i: nat)
    requires i < |pages|
    ensures Run(Lines(pages[..i + 1])) == RunFrom(Run(Lines(pages[..i])), PageLines(pages[i], i + 1))
  {
    assert pages[..i + 1][..i] == pages[..i];
    RunAppend(Lines(pages[..i]), PageLines(pages[i], i + 1));
  }

  method CollectHeadings(words: seq<Word>) returns (headings: set<string>)
    ensures headings == HeadingWords(words)
  {
    headings := {};
    for i := 0 to |words|
      invariant headings == HeadingWords(words[..i])
    {
      if words[i].heading {
        headings := headings + {words[i].text};
      }
      HeadingsStep(words, i);
    }
    assert words[..|words|] == words;
  }

  lemma {:induction false} HeadingsStep(words: seq<Word>, i: nat)
    requires i < |words|
    ensures HeadingWords(words[..i + 1]) == HeadingWords(words[..i]) + if words[i].heading then {words[i].text} else {}
  {
    assert words[..i + 1] == words[..i] + [words[i]];
  }

  method ExtractSections(pages: seq<Page>, clean: string -> string) returns (sections: seq<Parsed>)
    ensures sections == Extracted(pages, clean)
  {
    sections := [];
    var title, lines, start := INTRODUCTION, [], 1;
    for i := 0 to |pages|
      invariant Holds(Run(Lines(pages[..i])), sections, title, lines, start, clean)
    {
      var headings := CollectHeadings(pages[i].words);
      var texts := Split(pages[i].text, "\n");
      ghost var st := Run(Lines(pages[..i]));
      for j := 0 to |texts|
        invariant Holds(RunFrom(st, LinesOf(texts[..j], i + 1, headings)), sections, title, lines, start, clean)
      {
        LinesOfStep(texts, j, i + 1, headings, st);
        ghost var now := RunFrom(st, LinesOf(texts[..j], i + 1, headings));
        var stripped := Strip(texts[j]);
        if stripped == "" {
          continue;
        }
        CleanedFlush(now, i + 1, clean);
        if IsHeadingLine(stripped, headings) {
          if lines != [] {
            sections := sections + [Parsed(title, clean(Join(lines, "\n")), start, i + 1)];
          }
          title, lines, start := stripped, [], i + 1;
        } else {
          lines := lines + [stripped];
        }
      }
      assert texts[..|texts|] == texts;
      PageStep(pages, i);
    }
    assert pages[..|pages|] == pages;
    CleanedFlush(Run(Lines(pages)), |pages|, clean);
    if lines != [] {
      sections := sections + [Parsed(title, clean(Join(lines, "\n")), start, |pages|)];
    }
    if sections == [] {
      sections := [Parsed("Document Content", Join(CleanPages(pages, clean), "\n"), 1, |pages|)];
    }
  }

  // ------------------------------------------------------------------ chunks

  function Min(a: int, b: int): int {
    if a <= b then a else b
  }

  /** c chunks of up to limit words are just enough for n words: c is n / limit rounded up. */
  predicate IsCeil(c: nat, n: nat, limit: nat) {
    (c - 1) * limit < n <= c * limit || n == c == 0
  }

  /** words[i * limit : (i + 1) * limit] for each i of the range. */
  function Slices(words: seq<string>, limit: nat): seq<seq<string>>
    requires limit > 0
    decreases |words|
  {
    if words == [] then []
    else if |words| <= limit then [words]
    else [words[..limit]] + Slices(words[limit..], limit)
  }

  function Flatten(slices: seq<seq<string>>): seq<string> {
    if slices == [] then [] else slices[0] + Flatten(slices[1..])
  }

  lemma {:induction false} CeilStep(c: nat, n: nat, limit: nat)
    requires 0 < limit < n && IsCeil(c, n - limit, limit)
    ensures IsCeil(1 + c, n, limit)
  {
    assert (c - 1) * limit + limit == c * limit;
    assert c * limit + limit == (1 + c) * limit;
  }

  /** Cutting words loses none, fills every chunk with 1 to limit words, and makes ceil(n / limit) of them. */
  lemma {:induction false} SlicesConserve(words: seq<string>, limit: nat)
    requires limit > 0
    ensures Flatten(Slices(words, limit)) == words
    ensures forall i | 0 <= i < |Slices(words, limit)| :: 1 <= |Slices(words, limit)[i]| <= limit
    ensures IsCeil(|Slices(words, limit)|, |words|, limit)
    decreases |words|
  {
    if 0 < |words| <= limit {
      assert [words][1..] == [];
      assert words + [] == words;
    } else if words != [] {
      var rest := words[limit..];
      SlicesConserve(rest, limit);
      CeilStep(|Slices(rest, limit)|, |words|, limit);
      assert ([words[..limit]] + Slices(rest, limit))[1..] == Slices(rest, limit);
      assert words[..limit] + rest == words;
    }
  }

  function Part(s: Parsed, slice: seq<string>, i: nat): Parsed {
    Parsed(s.title + " (part " + Digits(i + 1) + ")", Join(slice, " "), s.first, s.last)
  }

  function Parts(s: Parsed, slices: seq<seq<string>>): seq<Parsed> {
    seq(|slices|, i requires 0 <= i < |slices| => Part(s, slices[i], i))
  }

  /** What one section becomes. A negative limit makes the range empty, and drops the section. */
  function Chunk(s: Parsed, limit: int): seq<Parsed> {
    if |Words(s.content)| <= limit then [s]
    else if limit <= 0 then []
    else Parts(s, Slices(Words(s.content), limit))
  }

  /** None is the ValueError of range() with step zero. */
  function Chunked(sections: seq<Parsed>, limit: int): Option<seq<Parsed>> {
    if sections == [] then Some([])
    else
      var n := |sections| - 1;
      match Chunked(sections[..n], limit)
      case None => None
      case Some(older) =>
        if limit == 0 && Words(sections[n].content) != [] then None else Some(older + Chunk(sections[n], limit))
  }

  function AllWords(sections: seq<Parsed>): seq<string> {
    if sections == [] then [] else AllWords(sections[..|sections| - 1]) + Words(sections[|sections| - 1].content)
  }

  lemma {:induction false} AllWordsAppend(a: seq<Parsed>, b: seq<Parsed>)
    ensures AllWords(a + b) == AllWords(a) + AllWords(b)
  {
    if b == [] {
      assert a + b == a;
    } else {
      assert (a + b)[..|a + b| - 1] == a + b[..|b| - 1];
      AllWordsAppend(a, b[..|b| - 1]);
    }
  }

  predicate WordLists(slices: seq<seq<string>>) {
    forall i | 0 <= i < |slices| :: WordList(slices[i])
  }

  predicate WordList(ws: seq<string>) {
    forall i | 0 <= i < |ws| :: ws[i] != "" && SpaceFree(ws[i])
  }

  lemma {:induction false} SlicesAreWords(words: seq<string>, limit: nat)
    requires limit > 0 && WordList(words)
    ensures WordLists(Slices(words, limit))
    decreases |words|
  {
    if |words| > limit {
      SlicesAreWords(words[limit..], limit);
      assert WordList(words[..limit]);
    }
  }

  /** Reading a part's words again gives the slice it was joined from. */
  lemma {:induction false} PartWords(s: Parsed, slices: seq<seq<string>>, i: nat)
    requires WordLists(slices) && i < |slices|
    ensures Words(Parts(s, slices)[i].content) == slices[i]
  {
    assert WordList(slices[i]);
    WordsOfJoin(slices[i]);
  }

  lemma {:induction false} FlattenSnoc(slices: seq<seq<string>>, last: seq<string>)
    ensures Flatten(slices + [last]) == Flatten(slices) + last
  {
    if slices == [] {
      assert [last][1..] == [];
    } else {
      assert (slices + [last])[1..] == slices[1..] + [last];
      FlattenSnoc(slices[1..], last);
    }
  }

  lemma {:induction false} PartsWords(s: Parsed, slices: seq<seq<string>>)
    requires WordLists(slices)
    ensures AllWords(Parts(s, slices)) == Flatten(slices)
  {
    if slices != [] {
      var n := |slices| - 1;
      PartsWords(s, slices[..n]);
      PartWords(s, slices, n);
      FlattenSnoc(slices[..n], slices[n]);
      assert slices == slices[..n] + [slices[n]];
      assert Parts(s, slices)[..n] == Parts(s, slices[..n]);
    }
  }

  lemma {:induction false} PartsSized(s: Parsed, slices: seq<seq<string>>, limit: nat)
    requires WordLists(slices) && forall i | 0 <= i < |slices| :: 1 <= |slices[i]| <= limit
    ensures forall i | 0 <= i < |slices| :: 1 <= |Words(Parts(s, slices)[i].content)| <= limit
  {
    forall i | 0 <= i < |slices| ensures Words(Parts(s, slices)[i].content) == slices[i] {
      PartWords(s, slices, i);
    }
  }

  /** A section of more than limit words is cut into just enough parts of 1 to limit words, with its pages. */
  lemma {:induction false} ChunkSizes(s: Parsed, limit: nat)
    requires 0 < limit < |Words(s.content)|
    ensures IsCeil(|Chunk(s, limit)|, |Words(s.content)|, limit)
    ensures forall i | 0 <= i < |Chunk(s, limit)| :: 1 <= |Words(Chunk(s, limit)[i].content)| <= limit
    ensures forall i | 0 <= i < |Chunk(s, limit)| ::
              Chunk(s, limit)[i].first == s.first && Chunk(s, limit)[i].last == s.last
  {
    SlicesConserve(Words(s.content), limit);
    SlicesAreWords(Words(s.content), limit);
    PartsSized(s, Slices(Words(s.content), limit), limit);
  }

  lemma {:induction false} AllWordsOne(s: Parsed)
    ensures AllWords([s]) == Words(s.content)
  {
    assert [s][..0] == [];
  }

  /** For every positive limit the words of the chunks are the section's words. */
  lemma {:induction false} ChunkConserves(s: Parsed, limit: nat)
    requires limit > 0
    ensures AllWords(Chunk(s, limit)) == Words(s.content)
  {
    if |Words(s.content)| <= limit {
      AllWordsOne(s);
    } else {
      SlicesConserve(Words(s.content), limit);
      SlicesAreWords(Words(s.content), limit);
      PartsWords(s, Slices(Words(s.content), limit));
    }
  }

  lemma {:induction false} ChunkSmall(s: Parsed, limit: nat)
    requires limit > 0
    ensures forall c | c in Chunk(s, limit) :: |Words(c.content)| <= limit
  {
    if limit < |Words(s.content)| {
      ChunkSizes(s, limit);
    }
  }

  /** Over a whole document no word is lost, moved or repeated. */
  lemma {:induction false} ChunkingConserves(sections: seq<Parsed>, limit: nat)
    requires limit > 0
    ensures Chunked(sections, limit).Some?
    ensures AllWords(Chunked(sections, limit).value) == AllWords(sections)
    ensures forall c | c in Chunked(sections, limit).value :: |Words(c.content)| <= limit
  {
    if sections != [] {
      var n := |sections| - 1;
      ChunkingConserves(sections[..n], limit);
      ChunkConserves(sections[n], limit);
      ChunkSmall(sections[n], limit);
      AllWordsAppend(Chunked(sections[..n], limit).value, Chunk(sections[n], limit));
    }
  }

  lemma {:induction false} SmallUnchanged(sections: seq<Parsed>, limit: nat)
    requires limit > 0 && forall c | c in sections :: |Words(c.content)| <= limit
    ensures Chunked(sections, limit) == Some(sections)
  {
    if sections != [] {
      var n := |sections| - 1;
      assert sections[n] in sections && Chunk(sections[n], limit) == [sections[n]];
      SmallUnchanged(sections[..n], limit);
      assert sections == sections[..n] + [sections[n]];
    }
  }

  /** Chunking again changes nothing. */
  lemma {:induction false} ChunkingIdempotent(sections: seq<Parsed>, limit: nat)
    requires limit > 0
    ensures Chunked(sections, limit).Some?
    ensures Chunked(Chunked(sections, limit).value, limit) == Chunked(sections, limit)
  {
    ChunkingConserves(sections, limit);
    SmallUnchanged(Chunked(sections, limit).value, limit);
  }

  /** With a limit that is not positive there is no such promise: a section with words is lost, or an error. */
  lemma {:induction false} BadLimitLoses(s: Parsed, limit: int)
    requires limit <= 0 && Words(s.content) != []
    ensures Chunked([s], limit) == if limit == 0 then None else Some([])
  {
    var none: seq<Parsed> := [s][..0];
    assert none == [] && Chunked(none, limit) == Some([]);
    assert Chunk(s, limit) == [] && none + Chunk(s, limit) == [];
  }

  /** The slices still to come when the range has reached start. */
  function Remaining(words: seq<string>, limit: nat, start: nat): seq<seq<string>>
    requires limit > 0
  {
    if start < |words| then Slices(words[start..], limit) else []
  }

  lemma {:induction false} SlicesStep(words: seq<string>, limit: nat, start: nat)
    requires limit > 0 && start < |words|
    ensures Remaining(words, limit, start)
            == [words[start..Min(start + limit, |words|)]] + Remaining(words, limit, start + limit)
  {
    var rest := words[start..];
    if |rest| > limit {
      assert rest[limit..] == words[start + limit..];
      assert rest[..limit] == words[start..start + limit];
    } else {
      assert words[start..|words|] == rest;
    }
  }

  function SliceAt(words: seq<string>, limit: nat, start: nat): seq<string>
    requires start < |words|
  {
    words[start..Min(start + limit, |words|)]
  }

  lemma {:induction false} CutStep(s: Parsed, words: seq<string>, limit: nat, start: nat, done: seq<seq<string>>)
    requires limit > 0 && start < |words| && done + Remaining(words, limit, start) == Slices(words, limit)
    ensures done + [SliceAt(words, limit, start)] + Remaining(words, limit, start + limit) == Slices(words, limit)
    ensures Parts(s, done + [SliceAt(words, limit, start)])
            == Parts(s, done) + [Part(s, SliceAt(words, limit, start), |done|)]
  {
    SlicesStep(words, limit, start);
    var slice, later := SliceAt(words, limit, start), Remaining(words, limit, start + limit);
    assert done + ([slice] + later) == done + [slice] + later;
  }

  lemma {:induction false} RemainingEnds(words: seq<string>, limit: nat)
    requires limit > 0
    ensures Remaining(words, limit, 0) == Slices(words, limit)
    ensures forall start, done :: |words| <= start ==> done + Remaining(words, limit, start) == done
  {
    assert words[0..] == words;
  }

  method CutSection(s: Parsed, words: seq<string>, limit: nat) returns (parts: seq<Parsed>)
    requires limit > 0
    ensures parts == Parts(s, Slices(words, limit))
  {
    parts := [];
    ghost var done: seq<seq<string>> := [];
    var start := 0;
    RemainingEnds(words, limit);
    while start < |words|
      invariant done + Remaining(words, limit, start) == Slices(words, limit)
      invariant |parts| == |done| && parts == Parts(s, done)
    {
      CutStep(s, words, limit, start, done);
      var slice := SliceAt(words, limit, start);
      parts := parts + [Part(s, slice, |parts|)];
      done := done + [slice];
      start := start + limit;
    }
  }

  method ChunkSections(sections: seq<Parsed>, limit: int) returns (r: Option<seq<Parsed>>)
    ensures r == Chunked(sections, limit)
  {
    var chunked: seq<Parsed> := [];
    for i := 0 to |sections|
      invariant Chunked(sections[..i], limit) == Some(chunked)
    {
      ChunkedStep(sections, i, limit);
      var words := Words(sections[i].content);
      if |words| <= limit {
        chunked := chunked + [sections[i]];
        continue;
      }
      if limit == 0 {
        ChunkedFails(sections, i + 1, limit);
        return None;
      }
      var parts := [];
      if limit > 0 {
        parts := CutSection(sections[i], words, limit);
      }
      chunked := chunked + parts;
    }
    assert sections[..|sections|] == sections;
    r := Some(chunked);
  }

  lemma {:induction false} ChunkedStep(sections: seq<Parsed>, i: nat, limit: int)
    requires i < |sections|
    ensures Chunked(sections[..i + 1], limit)
            == match Chunked(sections[..i], limit)
               case None => None
               case Some(older) =>
                 if limit == 0 && Words(sections[i].content) != [] then None
                 else Some(older + Chunk(sections[i], limit))
  {
    assert sections[..i + 1][..i] == sections[..i];
  }

  lemma {:induction false} ChunkedFails(sections: seq<Parsed>, i: nat, limit: int)
    requires i <= |sections| && Chunked(sections[..i], limit) == None
    ensures Chunked(sections, limit) == None
    decreases |sections| - i
  {
    if i == |sections| {
      assert sections[..i] == sections;
    } else {
      ChunkedStep(sections, i, limit);
      ChunkedFails(sections, i + 1, limit);
    }
  }
}
