/** What sections and chunks say of the pages themselves. */
module SectionLaws {
  import opened PyText
  import opened RawValues
  import opened PdfSections

  // ------------------------------------------------------------ headings by position

  predicate Occurs(line: string, word: string, p: nat) {
    p + |word| <= |line| && line[p..p + |word|] == word
  }

  predicate MarkedBy(line: string, w: Word) {
    w.heading && exists p | 0 <= p <= |line| :: Occurs(line, w.text, p)
  }

  /** The line is short and holds, at some position, the text of a word of its page that is set as a heading. */
  predicate Marked(page: Page, line: string) {
    |line| < 120 && exists k | 0 <= k < |page.words| :: MarkedBy(line, page.words[k])
  }

  lemma {:induction false} ContainsIff(line: string, word: string)
    ensures Contains(line, word) <==> exists p | 0 <= p <= |line| :: Occurs(line, word, p)
  {
    var f := FindAt(line, word, 0);
    if f >= 0 {
      assert Occurs(line, word, f);
    }
    forall p: nat | p <= |line| && Occurs(line, word, p) ensures f >= 0 {
      assert MatchesAt(line, word, p);
    }
  }

  lemma {:induction false} HeadingIff(page: Page, line: string)
    ensures IsHeadingLine(line, HeadingWords(page.words)) <==> Marked(page, line)
  {
    var headings := HeadingWords(page.words);
    if IsHeadingLine(line, headings) {
      var h :| h in headings && Contains(line, h);
      var k :| 0 <= k < |page.words| && page.words[k].heading && page.words[k].text == h;
      ContainsIff(line, h);
      assert MarkedBy(line, page.words[k]);
    }
    if Marked(page, line) {
      var k :| 0 <= k < |page.words| && MarkedBy(line, page.words[k]);
      ContainsIff(line, page.words[k].text);
      assert page.words[k].text in headings;
    }
  }

  // ------------------------------------------------------------------ every line

  /** The line number j of page i, as the grouping sees it; blank ones are passed over. */
  function LineAt(pages: seq<Page>, i: nat, j: nat): string
    requires i < |pages| && j < |Split(pages[i].text, "\n")|
  {
    Strip(Split(pages[i].text, "\n")[j])
  }

  lemma {:induction false} LinesOfHas(texts: seq<string>, page: nat, headings: set<string>, j: nat)
    requires j < |texts| && Strip(texts[j]) != ""
    ensures Line(Strip(texts[j]), page, IsHeadingLine(Strip(texts[j]), headings)) in LinesOf(texts, page, headings)
  {
    if j < |texts| - 1 {
      LinesOfHas(texts[..|texts| - 1], page, headings, j);
    }
  }

  /** Every non-blank line is there with its page number, and is a heading exactly when it is marked. */
  lemma {:induction false} EveryLine(pages: seq<Page>, i: nat, j: nat)
    requires i < |pages| && j < |Split(pages[i].text, "\n")| && LineAt(pages, i, j) != ""
    ensures Line(LineAt(pages, i, j), i + 1, Marked(pages[i], LineAt(pages, i, j))) in Lines(pages)
  {
    if i == |pages| - 1 {
      LinesOfHas(Split(pages[i].text, "\n"), i + 1, HeadingWords(pages[i].words), j);
      HeadingIff(pages[i], LineAt(pages, i, j));
    } else {
      EveryLine(pages[..|pages| - 1], i, j);
    }
  }

  /** A line of the grouping, and the line of a page that it is. */
  predicate ComesFrom(pages: seq<Page>, line: Line, j: nat) {
    && 1 <= line.page <= |pages|
    && MadeFrom(pages[line.page - 1], Split(pages[line.page - 1].text, "\n"), line, j)
  }

  /** A line of the grouping, as it is made from this page. */
  predicate MadeFrom(page: Page, texts: seq<string>, line: Line, j: nat) {
    && j < |texts| && line.text != "" && line.text == Strip(texts[j])
    && (line.heading <==> Marked(page, line.text))
  }

  lemma {:induction false} LinesOfFrom(page: Page, texts: seq<string>, number: nat, line: Line) returns (j: nat)
    requires line in LinesOf(texts, number, HeadingWords(page.words))
    ensures MadeFrom(page, texts, line, j) && line.page == number
  {
    var n := |texts| - 1;
    if line in LinesOf(texts[..n], number, HeadingWords(page.words)) {
      j := LinesOfFrom(page, texts[..n], number, line);
    } else {
      j := n;
      HeadingIff(page, line.text);
    }
  }

  lemma {:induction false} ComesFromMore(pages: seq<Page>, n: nat, line: Line, j: nat)
    requires n <= |pages| && ComesFrom(pages[..n], line, j)
    ensures ComesFrom(pages, line, j)
  {
    assert pages[..n][line.page - 1] == pages[line.page - 1];
  }

  lemma {:induction false} LastPageLine(pages: seq<Page>, line: Line) returns (j: nat)
    requires pages != [] && line in PageLines(pages[|pages| - 1], |pages|)
    ensures ComesFrom(pages, line, j)
  {
    var page := pages[|pages| - 1];
    j := LinesOfFrom(page, Split(page.text, "\n"), |pages|, line);
  }

  lemma {:induction false} NoOtherLine(pages: seq<Page>, line: Line) returns (j: nat)
    requires line in Lines(pages)
    ensures ComesFrom(pages, line, j)
  {
    var n := |pages| - 1;
    if line in Lines(pages[..n]) {
      j := NoOtherLine(pages[..n], line);
      ComesFromMore(pages, n, line, j);
    } else {
      j := LastPageLine(pages, line);
    }
  }

  // ------------------------------------------------------------ nothing is lost

  /** The stripped lines of a page that are neither blank nor marked, in order. */
  function BodyOf(page: Page, texts: seq<string>): seq<string> {
    if texts == [] then []
    else
      var n := |texts| - 1;
      var line := Strip(texts[n]);
      BodyOf(page, texts[..n]) + if line == "" || Marked(page, line) then [] else [line]
  }

  function BodyOfPages(pages: seq<Page>): seq<string> {
    if pages == [] then []
    else BodyOfPages(pages[..|pages| - 1]) + BodyOf(pages[|pages| - 1], Split(pages[|pages| - 1].text, "\n"))
  }

  lemma {:induction false} BodyAppend(a: seq<Line>, b: seq<Line>)
    ensures Body(a + b) == Body(a) + Body(b)
  {
    if b == [] {
      assert a + b == a;
    } else {
      assert (a + b)[..|a + b| - 1] == a + b[..|b| - 1];
      BodyAppend(a, b[..|b| - 1]);
    }
  }

  lemma {:induction false} BodyOne(line: Line)
    ensures Body([line]) == if line.heading then [] else [line.text]
  {
    assert [line][..0] == [];
  }

  lemma {:induction false} BodyOfLines(page: Page, texts: seq<string>, number: nat)
    ensures Body(LinesOf(texts, number, HeadingWords(page.words))) == BodyOf(page, texts)
  {
    if texts != [] {
      var n := |texts| - 1;
      var line := Strip(texts[n]);
      BodyOfLines(page, texts[..n], number);
      HeadingIff(page, line);
      if line != "" {
        var last := Line(line, number, IsHeadingLine(line, HeadingWords(page.words)));
        BodyAppend(LinesOf(texts[..n], number, HeadingWords(page.words)), [last]);
        BodyOne(last);
      } else {
        var older := LinesOf(texts[..n], number, HeadingWords(page.words));
        assert older + [] == older && BodyOf(page, texts[..n]) + [] == BodyOf(page, texts[..n]);
      }
    }
  }

  lemma {:induction false} BodyIs(pages: seq<Page>)
    ensures Body(Lines(pages)) == BodyOfPages(pages)
  {
    if pages != [] {
      var n := |pages| - 1;
      BodyIs(pages[..n]);
      BodyOfLines(pages[n], Split(pages[n].text, "\n"), |pages|);
      BodyAppend(Lines(pages[..n]), PageLines(pages[n], |pages|));
    }
  }

  /** From the pages to the sections: all their lines in order, but the blank and the marked ones. */
  lemma {:induction false} PagesConserved(pages: seq<Page>)
    ensures AllLines(Grouped(Lines(pages), |pages|)) == BodyOfPages(pages)
  {
    GroupingConserves(Lines(pages), |pages|);
    BodyIs(pages);
  }

  predicate MarkedLine(pages: seq<Page>, number: nat, text: string, j: nat) {
    && 1 <= number <= |pages|
    && MadeFrom(pages[number - 1], Split(pages[number - 1].text, "\n"), Line(text, number, true), j)
  }

  /** A section is the introduction, or is named after a marked line of its first page. */
  ghost predicate Titled(pages: seq<Page>, s: Section) {
    (s.title == INTRODUCTION && s.first == 1) || exists j :: MarkedLine(pages, s.first, s.title, j)
  }

  lemma {:induction false} SectionTitled(pages: seq<Page>, s: Section, p: nat)
    requires Placed(Lines(pages), s, p, |pages|)
    ensures Titled(pages, s)
  {
    if p > 0 {
      var before := Lines(pages)[p - 1];
      var j := NoOtherLine(pages, before);
      assert MarkedLine(pages, s.first, s.title, j);
    }
  }

  lemma {:induction false} SectionsTitled(pages: seq<Page>)
    ensures forall s | s in Grouped(Lines(pages), |pages|) :: Titled(pages, s)
  {
    var at := SectionsArePlaced(Lines(pages), |pages|);
    TitledAll(pages, Grouped(Lines(pages), |pages|), at);
  }

  lemma {:induction false} TitledAll(pages: seq<Page>, sections: seq<Section>, at: seq<nat>)
    requires AllPlaced(Lines(pages), sections, at, |pages|)
    ensures forall s | s in sections :: Titled(pages, s)
  {
    forall k | 0 <= k < |sections| ensures Titled(pages, sections[k]) {
      SectionTitled(pages, sections[k], at[k]);
    }
  }

  lemma {:induction false} SectionsHaveLines(lines: seq<Line>, pages: nat)
    ensures Grouped(lines, pages) == [] <==> Body(lines) == []
  {
    GroupingConserves(lines, pages);
    var at := SectionsArePlaced(lines, pages);
    var sections := Grouped(lines, pages);
    if sections != [] {
      assert Placed(lines, sections[|sections| - 1], at[|sections| - 1], pages);
    }
  }

  /** Without a line that is neither blank nor marked, the cleaned pages make up the one section. */
  lemma {:induction false} BareDocument(pages: seq<Page>, clean: string -> string)
    requires BodyOfPages(pages) == []
    ensures |Extracted(pages, clean)| == 1
    ensures exists texts: seq<string> ::
              |texts| == |pages| && (forall i | 0 <= i < |pages| :: texts[i] == clean(pages[i].text))
              && Extracted(pages, clean)[0] == Parsed("Document Content", Join(texts, "\n"), 1, |pages|)
  {
    BodyIs(pages);
    SectionsHaveLines(Lines(pages), |pages|);
    var texts := CleanPages(pages, clean);
    assert |texts| == |pages| && forall i | 0 <= i < |pages| :: texts[i] == clean(pages[i].text);
  }

  /** Otherwise each section holds its lines, joined and cleaned. */
  lemma {:induction false} SectionTexts(pages: seq<Page>, clean: string -> string, k: nat)
    requires BodyOfPages(pages) != [] && k < |Extracted(pages, clean)|
    ensures var sections := Grouped(Lines(pages), |pages|);
            |Extracted(pages, clean)| == |sections|
            && Extracted(pages, clean)[k]
               == Parsed(sections[k].title, clean(Join(sections[k].lines, "\n")), sections[k].first, sections[k].last)
  {
    BodyIs(pages);
    SectionsHaveLines(Lines(pages), |pages|);
    CleanedKeeps(Grouped(Lines(pages), |pages|), clean);
  }

  // ------------------------------------------------------------------ chunks

  lemma {:induction false} SliceIs(words: seq<string>, limit: nat, i: nat)
    requires limit > 0 && i < |Slices(words, limit)|
    ensures i * limit < |words|
    ensures Slices(words, limit)[i] == words[i * limit..Min(i * limit + limit, |words|)]
    decreases |words|
  {
    if |words| > limit && i > 0 {
      var rest := words[limit..];
      SliceIs(rest, limit, i - 1);
      assert (i - 1) * limit + limit == i * limit;
      var from, to := (i - 1) * limit, Min((i - 1) * limit + limit, |rest|);
      assert rest[from..to] == words[limit + from..limit + to];
    } else {
      assert i == 0 && 0 * limit == 0;
    }
  }

  /** The number that decimal digits stand for. */
  function Value(digits: string): nat {
    if digits == "" then 0
    else 10 * Value(digits[..|digits| - 1]) + DigitValue(digits[|digits| - 1])
  }

  function DigitValue(c: char): nat {
    if '0' <= c <= '9' then c as nat - '0' as nat else 0
  }

  lemma {:induction false} DigitsRead(n: nat)
    ensures Value(Digits(n)) == n
  {
    if n < 10 {
      assert Digits(n)[..0] == "";
    } else {
      DigitsRead(n / 10);
      assert Digits(n)[..|Digits(n)| - 1] == Digits(n / 10);
    }
  }

  /** Part i of a long section: numbered from one, with the words from i * limit on. */
  lemma {:induction false} PartIs(s: Parsed, limit: nat, i: nat)
    requires 0 < limit < |Words(s.content)| && i < |Chunk(s, limit)|
    ensures var words := Words(s.content);
            i * limit < |words|
            && Words(Chunk(s, limit)[i].content) == words[i * limit..Min(i * limit + limit, |words|)]
    ensures exists digits :: Value(digits) == i + 1 && Chunk(s, limit)[i].title == s.title + " (part " + digits + ")"
  {
    var words := Words(s.content);
    SliceIs(words, limit, i);
    SlicesAreWords(words, limit);
    PartWords(s, Slices(words, limit), i);
    DigitsRead(i + 1);
    assert Chunk(s, limit)[i].title == s.title + " (part " + Digits(i + 1) + ")";
  }

  /** A section that is short enough stays as it is, title included. */
  lemma {:induction false} ShortStays(s: Parsed, limit: nat)
    requires |Words(s.content)| <= limit
    ensures Chunk(s, limit) == [s]
  {
  }
}
