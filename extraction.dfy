/**
 * Metadata post-processing of file_utils.py. The PDF loaders are oracles
 * whose results arrive as the page texts they produce; the two regular
 * expressions of `extract_authors_and_organizations` are oracles from a
 * line to the list `re.findall` returns for it.
 */
module Extraction {
  import opened Wrappers
  import opened Text

  /**
   * The dictionary `parse_and_extract` returns. Keys it never sets are
   * `None` here, so a reader indexing them with `[...]` gets a KeyError.
   */
  datatype ExtractedInfo = ExtractedInfo(
    title: string,
    emails: seq<string>,
    abstractText: Option<string>,
    content: Option<string>)

  /** `"@" in word and "." in word`. */
  predicate LooksLikeEmail(word: string) {
    '@' in word && '.' in word
  }

  function EmailWords(words: seq<string>): seq<string>
    decreases |words|
  {
    if |words| == 0 then []
    else (if LooksLikeEmail(words[0]) then [words[0]] else []) + EmailWords(words[1..])
  }

  /** The keeps-order, keeps-duplicates filter behind the `emails` list comprehension. */
  lemma {:induction false} EmailWordsFilter(words: seq<string>)
    ensures |EmailWords(words)| <= |words|
    ensures forall w :: w in EmailWords(words) <==> w in words && LooksLikeEmail(w)
    ensures forall w :: multiset(EmailWords(words))[w] == if LooksLikeEmail(w) then multiset(words)[w] else 0
    decreases |words|
  {
    if |words| > 0 {
      EmailWordsFilter(words[1..]);
      assert words == [words[0]] + words[1..];
    }
  }

  /**
   * The filter keeps text order: filtering a concatenation is filtering
   * each part, so the emails of a text are those of its words one by one,
   * left to right.
   */
  lemma {:induction false} EmailWordsAppend(a: seq<string>, b: seq<string>)
    ensures EmailWords(a + b) == EmailWords(a) + EmailWords(b)
    decreases |a|
  {
    if |a| == 0 {
      assert a + b == b;
    } else {
      assert (a + b)[0] == a[0];
      assert (a + b)[1..] == a[1..] + b;
      EmailWordsAppend(a[1..], b);
    }
  }

  /** The text both readings of the pages work on: the page contents joined with single spaces. */
  function PagesText(pageContents: seq<string>): string {
    Join(pageContents, " ")
  }

  /**
   * `parse_and_extract` as written: the title is the text before the first
   * "\n" of the joined pages (all of it when there is none), the emails are
   * the words of the text that contain both "@" and ".", in text order with
   * repeats kept; no "abstract" and no "content" key is set.
   */
  function ParseAndExtract(pageContents: seq<string>): (info: ExtractedInfo)
    ensures info.abstractText.None? && info.content.None?
    ensures IsPrefix(info.title, PagesText(pageContents)) && '\n' !in info.title
    ensures |info.title| == |PagesText(pageContents)| || PagesText(pageContents)[|info.title|] == '\n'
    ensures forall w :: w in info.emails <==> w in Words(PagesText(pageContents)) && LooksLikeEmail(w)
    ensures info.emails == EmailWords(Words(PagesText(pageContents)))
  {
    var text := PagesText(pageContents);
    SplitFirst(text, '\n');
    EmailWordsFilter(Words(text));
    ExtractedInfo(Split(text, '\n')[0], EmailWords(Words(text)), None, None)
  }

  /**
   * The reading app.py:124 and main.py:33-34 expect: the same dictionary
   * with the joined page text under "content".
   */
  function ParseAndExtractWithContent(pageContents: seq<string>): (info: ExtractedInfo)
    ensures info.content == Some(PagesText(pageContents))
    ensures info.title == ParseAndExtract(pageContents).title
    ensures info.emails == ParseAndExtract(pageContents).emails
  {
    ParseAndExtract(pageContents).(content := Some(PagesText(pageContents)))
  }

  /** Every email is a single non-empty word of the text holding "@" and "."; a text without "@" has none. */
  lemma EmailsAreWords(pageContents: seq<string>)
    ensures forall e :: e in ParseAndExtract(pageContents).emails ==>
      |e| > 0 && '@' in e && '.' in e && (forall i :: 0 <= i < |e| ==> !IsSpace(e[i]))
    ensures '@' !in PagesText(pageContents) ==> ParseAndExtract(pageContents).emails == []
  {
    var text := PagesText(pageContents);
    var emails := ParseAndExtract(pageContents).emails;
    WordsShape(text);
    if emails != [] {
      var e := emails[0];
      assert e in Words(text);
      var j :| 0 <= j < |Words(text)| && Words(text)[j] == e;
      var k :| 0 <= k < |e| && e[k] == '@';
      assert '@' in text;
    }
  }

  // ---------------------------------------------------------------------
  // extract_authors_and_organizations
  // ---------------------------------------------------------------------

  datatype ExtractionError =
    | NoPages             // `pdf.pages[0]` raises IndexError
    | NoTextOnFirstPage   // "No text found on the first page of the PDF."

  datatype People = People(authors: seq<string>, organizations: seq<string>)

  /** `lines[1:6]`. */
  function HeaderWindow(lines: seq<string>): seq<string> {
    lines[Min(1, |lines|)..Min(6, |lines|)]
  }

  /** The lines the `for ... break` loop reaches: those before the first line containing "Abstract". */
  function TakeUntilAbstract(lines: seq<string>): seq<string>
    decreases |lines|
  {
    if |lines| == 0 || Contains(lines[0], "Abstract") then []
    else [lines[0]] + TakeUntilAbstract(lines[1..])
  }

  /** The first-page lines the loop at file_utils.py:40-53 processes. */
  function ScannedLines(text: string): seq<string> {
    TakeUntilAbstract(HeaderWindow(Split(text, '\n')))
  }

  lemma {:induction false} TakeUntilAbstractPrefix(lines: seq<string>)
    ensures |TakeUntilAbstract(lines)| <= |lines|
    ensures TakeUntilAbstract(lines) == lines[..|TakeUntilAbstract(lines)|]
    ensures forall k :: 0 <= k < |TakeUntilAbstract(lines)| ==> !Contains(lines[k], "Abstract")
    ensures |TakeUntilAbstract(lines)| < |lines| ==> Contains(lines[|TakeUntilAbstract(lines)|], "Abstract")
    decreases |lines|
  {
    if |lines| > 0 && !Contains(lines[0], "Abstract") {
      TakeUntilAbstractPrefix(lines[1..]);
    }
  }

  /**
   * Only the lines at indices 1 to 5 are scanned, in order, and scanning
   * stops before the first of them that contains "Abstract".
   */
  lemma ScannedLinesShape(text: string)
    ensures var lines, scanned := Split(text, '\n'), ScannedLines(text);
      |scanned| <= 5
      && (|scanned| > 0 ==> 1 + |scanned| <= |lines| && scanned == lines[1..1 + |scanned|])
      && (forall k :: 0 <= k < |scanned| ==> !Contains(scanned[k], "Abstract"))
      && (1 + |scanned| < Min(6, |lines|) ==> Contains(lines[1 + |scanned|], "Abstract"))
  {
    var lines := Split(text, '\n');
    var window := HeaderWindow(lines);
    TakeUntilAbstractPrefix(window);
    var n := |TakeUntilAbstract(window)|;
    assert |window| <= 5;
    if n > 0 {
      assert window == lines[1..Min(6, |lines|)];
      assert window[..n] == lines[1..1 + n];
    }
    if 1 + n < Min(6, |lines|) {
      assert window[n] == lines[1 + n];
    }
  }

  /** `authors.extend(...)` over a sequence of lines. */
  function FlatMap(f: string -> seq<string>, lines: seq<string>): seq<string>
    decreases |lines|
  {
    if |lines| == 0 then [] else FlatMap(f, lines[..|lines| - 1]) + f(lines[|lines| - 1])
  }

  /** Extending line by line collects exactly the matches of some scanned line. */
  lemma {:induction false} FlatMapMembers(f: string -> seq<string>, lines: seq<string>)
    ensures forall x :: x in FlatMap(f, lines) <==> exists k :: 0 <= k < |lines| && x in f(lines[k])
    decreases |lines|
  {
    if |lines| > 0 {
      var n := |lines| - 1;
      FlatMapMembers(f, lines[..n]);
      forall x
        ensures x in FlatMap(f, lines) <==> exists k :: 0 <= k < |lines| && x in f(lines[k])
      {
        if x in FlatMap(f, lines[..n]) {
          var k :| 0 <= k < n && x in f(lines[..n][k]);
          assert lines[..n][k] == lines[k];
        }
        if exists k :: 0 <= k < |lines| && x in f(lines[k]) {
          var k :| 0 <= k < |lines| && x in f(lines[k]);
          if k < n {
            assert lines[..n][k] == lines[k];
          }
        }
      }
    }
  }

  /** `any(word.lower() in author.lower() for word in ["university", "institute"])`. */
  predicate Institutional(author: string) {
    Contains(Lower(author), "university") || Contains(Lower(author), "institute")
  }

  /** The list comprehension of file_utils.py:58. */
  function DropInstitutional(xs: seq<string>): (r: seq<string>)
    decreases |xs|
  {
    if |xs| == 0 then []
    else (if Institutional(xs[0]) then [] else [xs[0]]) + DropInstitutional(xs[1..])
  }

  lemma {:induction false} DropInstitutionalFilter(xs: seq<string>)
    ensures forall a :: a in DropInstitutional(xs) <==> a in xs && !Institutional(a)
    ensures NoDup(xs) ==> NoDup(DropInstitutional(xs))
    decreases |xs|
  {
    if |xs| > 0 {
      DropInstitutionalFilter(xs[1..]);
      assert xs == [xs[0]] + xs[1..];
      if NoDup(xs) {
        assert NoDup(xs[1..]);
      }
    }
  }

  /** `list(s)` for a set: every element once, in an order Python does not fix. */
  method SetToList(s: set<string>) returns (xs: seq<string>)
    ensures NoDup(xs)
    ensures forall x :: x in xs <==> x in s
  {
    xs := [];
    var rest := s;
    while rest != {}
      invariant NoDup(xs)
      invariant forall x :: x in s <==> x in xs || x in rest
      invariant forall x :: x in xs ==> x !in rest
      decreases |rest|
    {
      var x :| x in rest;
      xs := xs + [x];
      rest := rest - {x};
    }
  }

  /**
   * What a successful extraction promises about the first page's text:
   * the authors are the distinct name matches on the scanned lines that do
   * not mention a university or an institute; the organizations are the
   * distinct organisation matches on those lines that are not authors.
   */
  ghost predicate PeopleOf(p: People, text: string, findNames: string -> seq<string>, findOrganizations: string -> seq<string>) {
    var scanned := ScannedLines(text);
    NoDup(p.authors) && NoDup(p.organizations)
    && (forall a :: a in p.authors <==> a in FlatMap(findNames, scanned) && !Institutional(a))
    && (forall o :: o in p.organizations <==> o in FlatMap(findOrganizations, scanned) && o !in p.authors)
  }

  /**
   * `extract_authors_and_organizations` on the texts pdfplumber extracts
   * from the pages. It fails when there is no page or the first page has no
   * text; otherwise the authors are the distinct names the name matcher
   * found on the scanned lines, minus those mentioning a university or an
   * institute, and the organizations are the distinct organisation matches
   * that are not among those authors. The order of both lists is not fixed.
   */
  method ExtractAuthorsAndOrganizations(
    pageTexts: seq<string>, findNames: string -> seq<string>, findOrganizations: string -> seq<string>)
    returns (r: Result<People, ExtractionError>)
    ensures pageTexts == [] <==> r == Failure(NoPages)
    ensures pageTexts != [] && pageTexts[0] == "" <==> r == Failure(NoTextOnFirstPage)
    ensures r.Failure? <==> pageTexts == [] || pageTexts[0] == ""
    ensures r.Success? ==> pageTexts != [] && PeopleOf(r.value, pageTexts[0], findNames, findOrganizations)
  {
    if |pageTexts| == 0 {
      return Failure(NoPages);
    }
    var text := pageTexts[0];
    if text == "" {
      return Failure(NoTextOnFirstPage);
    }
    var lines := Split(text, '\n');
    var window := lines[Min(1, |lines|)..Min(6, |lines|)];
    assert window == HeaderWindow(lines);
    var names, orgs := ScanLines(window, findNames, findOrganizations);
    var people := DistinctPeople(names, orgs);
    return Success(people);
  }

  /** The `for ... break` loop: the matches on every line before the first containing "Abstract". */
  method ScanLines(window: seq<string>, findNames: string -> seq<string>, findOrganizations: string -> seq<string>)
    returns (names: seq<string>, orgs: seq<string>)
    ensures names == FlatMap(findNames, TakeUntilAbstract(window))
    ensures orgs == FlatMap(findOrganizations, TakeUntilAbstract(window))
  {
    ghost var scanned := TakeUntilAbstract(window);
    names, orgs := [], [];
    var k := 0;
    while k < |window|
      invariant 0 <= k <= |window|
      invariant scanned == window[..k] + TakeUntilAbstract(window[k..])
      invariant names == FlatMap(findNames, window[..k])
      invariant orgs == FlatMap(findOrganizations, window[..k])
    {
      var line := window[k];
      if Contains(line, "Abstract") {
        break;
      }
      assert window[k..] == [line] + window[k + 1..];
      assert window[..k + 1][..k] == window[..k];
      names := names + findNames(line);
      orgs := orgs + findOrganizations(line);
      k := k + 1;
    }
    assert scanned == window[..k];
  }

  /** `list(set(authors))` filtered, then `list(set(organizations) - set(authors))`. */
  method DistinctPeople(names: seq<string>, orgs: seq<string>) returns (p: People)
    ensures NoDup(p.authors) && NoDup(p.organizations)
    ensures forall a :: a in p.authors <==> a in names && !Institutional(a)
    ensures forall o :: o in p.organizations <==> o in orgs && o !in p.authors
  {
    var distinctNames := SetToList(set a | a in names);
    var authors := DropInstitutional(distinctNames);
    DropInstitutionalFilter(distinctNames);
    var organizations := SetToList((set o | o in orgs) - (set a | a in authors));
    p := People(authors, organizations);
  }
}
