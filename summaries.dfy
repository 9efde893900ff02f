/**
 * Section selection in `summarize_sections` (summary_utils.py). The text
 * splitter and the LLM summariser are oracles: the splitter maps the page
 * texts to the chunk texts it produces, the summariser maps a section title
 * and its text to a summary or fails (`None`), failing the whole call.
 */
module Summaries {
  import opened Wrappers
  import opened Text

  const HeaderLines: nat := 5

  /**
   * The header strip of summary_utils.py:13-16: unless one of the first five
   * lines is exactly "Abstract", the page keeps only its lines from the
   * sixth on, rejoined with "\n".
   */
  function StripHeader(content: string): string {
    var lines := Split(content, '\n');
    if "Abstract" in lines[..Min(HeaderLines, |lines|)] then content
    else Join(lines[Min(HeaderLines, |lines|)..], "\n")
  }

  /**
   * A stripped page is exactly what follows the fifth "\n" of the original
   * (nothing when it has fewer than six lines); a page with an "Abstract"
   * line among its first five is kept whole.
   */
  lemma StripHeaderDropsFiveLines(content: string)
    ensures var lines := Split(content, '\n');
      ("Abstract" in lines[..Min(HeaderLines, |lines|)] ==> StripHeader(content) == content)
      && ("Abstract" !in lines[..Min(HeaderLines, |lines|)] && |lines| > HeaderLines ==>
            content == Join(lines[..HeaderLines], "\n") + "\n" + StripHeader(content))
      && ("Abstract" !in lines[..Min(HeaderLines, |lines|)] && |lines| <= HeaderLines ==>
            StripHeader(content) == "")
  {
    var lines := Split(content, '\n');
    if "Abstract" !in lines[..Min(HeaderLines, |lines|)] && |lines| > HeaderLines {
      JoinSplit(content, '\n');
      assert lines == lines[..HeaderLines] + lines[HeaderLines..];
      JoinAppend(lines[..HeaderLines], lines[HeaderLines..], "\n");
    }
  }

  /** The loop of summary_utils.py:12-16, rewriting every page's content in place. */
  method StripHeaders(pages: array<string>)
    modifies pages
    ensures forall k :: 0 <= k < pages.Length ==> pages[k] == StripHeader(old(pages[k]))
  {
    var k := 0;
    while k < pages.Length
      invariant 0 <= k <= pages.Length
      invariant forall j :: 0 <= j < k ==> pages[j] == StripHeader(old(pages[j]))
      invariant forall j :: k <= j < pages.Length ==> pages[j] == old(pages[j])
    {
      pages[k] := StripHeader(pages[k]);
      k := k + 1;
    }
  }

  /** The chunks whose lower-cased text contains the lower-cased option, in chunk order. */
  function Matching(option: string, chunks: seq<string>): seq<string>
    decreases |chunks|
  {
    if |chunks| == 0 then []
    else
      (if Contains(Lower(chunks[0]), Lower(option)) then [chunks[0]] else []) + Matching(option, chunks[1..])
  }

  /** Matching keeps exactly the chunks mentioning the option, each as often as it occurs. */
  lemma {:induction false} MatchingFilter(option: string, chunks: seq<string>)
    ensures forall c :: c in Matching(option, chunks) <==>
      c in chunks && Contains(Lower(c), Lower(option))
    ensures forall c ::
      multiset(Matching(option, chunks))[c] == (if Contains(Lower(c), Lower(option)) then multiset(chunks)[c] else 0)
    decreases |chunks|
  {
    if |chunks| > 0 {
      MatchingFilter(option, chunks[1..]);
      assert chunks == [chunks[0]] + chunks[1..];
    }
  }

  /** Matching keeps chunk order: matching a concatenation is matching each part. */
  lemma {:induction false} MatchingAppend(option: string, a: seq<string>, b: seq<string>)
    ensures Matching(option, a + b) == Matching(option, a) + Matching(option, b)
    decreases |a|
  {
    if |a| == 0 {
      assert a + b == b;
    } else {
      assert (a + b)[0] == a[0];
      assert (a + b)[1..] == a[1..] + b;
      MatchingAppend(option, a[1..], b);
    }
  }

  /** The comprehension of summary_utils.py:47-50: the matching chunks joined with single spaces. */
  function Collect(option: string, chunks: seq<string>): string {
    Join(Matching(option, chunks), " ")
  }

  lemma {:induction false} JoinOfBlanks(parts: seq<string>, sep: string)
    requires IsBlank(sep)
    requires forall k :: 0 <= k < |parts| ==> IsBlank(parts[k])
    ensures IsBlank(Join(parts, sep))
    decreases |parts|
  {
    if |parts| > 1 {
      JoinOfBlanks(parts[1..], sep);
      assert Join(parts, sep) == parts[0] + sep + Join(parts[1..], sep);
    }
  }

  lemma BlankConcat(a: string, b: string)
    requires IsBlank(a + b)
    ensures IsBlank(a) && IsBlank(b)
  {
    forall i | 0 <= i < |a|
      ensures IsSpace(a[i])
    {
      assert (a + b)[i] == a[i];
    }
    forall i | 0 <= i < |b|
      ensures IsSpace(b[i])
    {
      assert (a + b)[|a| + i] == b[i];
    }
  }

  lemma {:induction false} BlankJoinParts(parts: seq<string>, sep: string)
    requires IsBlank(Join(parts, sep))
    ensures forall k :: 0 <= k < |parts| ==> IsBlank(parts[k])
    decreases |parts|
  {
    if |parts| > 1 {
      var rest := Join(parts[1..], sep);
      assert Join(parts, sep) == parts[0] + (sep + rest);
      BlankConcat(parts[0], sep + rest);
      BlankConcat(sep, rest);
      BlankJoinParts(parts[1..], sep);
      forall k | 1 <= k < |parts|
        ensures IsBlank(parts[k])
      {
        assert parts[k] == parts[1..][k - 1];
      }
    }
  }

  /** The collected text of an option is blank exactly when every chunk mentioning it is blank. */
  lemma CollectBlank(option: string, chunks: seq<string>)
    ensures (forall c :: c in chunks && Contains(Lower(c), Lower(option)) ==> IsBlank(c))
      <==> IsBlank(Collect(option, chunks))
  {
    MatchingFilter(option, chunks);
    var m := Matching(option, chunks);
    if forall c :: c in chunks && Contains(Lower(c), Lower(option)) ==> IsBlank(c) {
      forall k | 0 <= k < |m|
        ensures IsBlank(m[k])
      {
        assert m[k] in m;
      }
      JoinOfBlanks(m, " ");
    }
    if IsBlank(Collect(option, chunks)) {
      BlankJoinParts(m, " ");
      forall c | c in chunks && Contains(Lower(c), Lower(option))
        ensures IsBlank(c)
      {
        assert c in m;
        var k :| 0 <= k < |m| && m[k] == c;
      }
    }
  }

  /**
   * The section text chosen from the options `[section_title] + fallbacks`:
   * the collected text of the first option for which it is not blank, or
   * the (blank) text of the last option when there is none.
   */
  function SectionText(options: seq<string>, chunks: seq<string>): string
    requires |options| > 0
    decreases |options|
  {
    var text := Collect(options[0], chunks);
    if |options| == 1 || !IsBlank(text) then text else SectionText(options[1..], chunks)
  }

  /**
   * Options are tried in order and the first non-blank collection wins:
   * the chosen text is non-blank exactly when some option's is, and then it
   * is that of the first such option.
   */
  lemma {:induction false} SectionTextFirstHit(options: seq<string>, chunks: seq<string>)
    requires |options| > 0
    ensures !IsBlank(SectionText(options, chunks)) <==>
      exists j :: 0 <= j < |options| && !IsBlank(Collect(options[j], chunks))
    ensures !IsBlank(SectionText(options, chunks)) ==>
      exists j :: 0 <= j < |options| && SectionText(options, chunks) == Collect(options[j], chunks)
        && forall i :: 0 <= i < j ==> IsBlank(Collect(options[i], chunks))
    decreases |options|
  {
    var text := Collect(options[0], chunks);
    if |options| > 1 && IsBlank(text) {
      SectionTextFirstHit(options[1..], chunks);
      if exists j :: 0 <= j < |options| && !IsBlank(Collect(options[j], chunks)) {
        var j :| 0 <= j < |options| && !IsBlank(Collect(options[j], chunks));
        assert options[1..][j - 1] == options[j];
      }
      if !IsBlank(SectionText(options, chunks)) {
        var j :| 0 <= j < |options[1..]| && SectionText(options[1..], chunks) == Collect(options[1..][j], chunks)
          && forall i :: 0 <= i < j ==> IsBlank(Collect(options[1..][i], chunks));
        forall i | 0 <= i < j + 1
          ensures IsBlank(Collect(options[i], chunks))
        {
          if i > 0 {
            assert options[i] == options[1..][i - 1];
          }
        }
      }
    }
  }

  /** The options loop of summary_utils.py:45-52, leaving it at the first non-blank collection. */
  method SelectSectionText(sectionTitle: string, fallbacks: seq<string>, chunks: seq<string>)
    returns (sectionText: string)
    ensures sectionText == SectionText([sectionTitle] + fallbacks, chunks)
  {
    var options := [sectionTitle] + fallbacks;
    var k := 0;
    sectionText := "";
    while k < |options|
      invariant 0 <= k <= |options|
      invariant k == 0 ==> sectionText == ""
      invariant 0 < k ==> IsBlank(sectionText) && sectionText == Collect(options[k - 1], chunks)
      invariant 0 < k < |options| ==> SectionText(options, chunks) == SectionText(options[k..], chunks)
      invariant k == |options| ==> SectionText(options, chunks) == sectionText
    {
      sectionText := Collect(options[k], chunks);
      if !IsBlank(sectionText) {
        assert SectionText(options[k..], chunks) == sectionText;
        return;
      }
      if k + 1 < |options| {
        assert options[k..][1..] == options[k + 1..];
      }
      k := k + 1;
    }
  }

  /** One entry of `section_titles`: the key and its fallback titles. */
  datatype Section = Section(title: string, fallbacks: seq<string>)

  datatype SummaryError = SummarizerFailed(sectionTitle: string)

  /** The "missing content" value of summary_utils.py:64. */
  function NoContent(sectionTitle: string): string {
    "No content found for " + sectionTitle + "."
  }

  /**
   * The summariser `summarization_chain.run`: a summary for a section title
   * and its text, or `None` when it raises. It is a partial function,
   * defined exactly where the code may call it.
   */
  type Summarizer = (string, string) --> Option<string>

  /**
   * The summariser is defined on every non-blank text. Nothing more is
   * known, so a call on blank text cannot be proved well formed: the guard
   * at summary_utils.py:56 is enforced by the verifier, not by a log.
   */
  ghost predicate SummarizesNonBlank(summarize: Summarizer) {
    forall title, text :: !IsBlank(text) ==> summarize.requires(title, text)
  }

  /** What the loop body stores for one section; `None` when the summariser fails. */
  function Entry(s: Section, chunks: seq<string>, summarize: Summarizer): Option<string>
    requires SummarizesNonBlank(summarize)
  {
    var text := SectionText([s.title] + s.fallbacks, chunks);
    if IsBlank(text) then Some(NoContent(s.title)) else summarize(s.title, text)
  }

  function EntryOf(chunks: seq<string>, summarize: Summarizer): Section -> Option<string>
    requires SummarizesNonBlank(summarize)
  {
    s => Entry(s, chunks, summarize)
  }

  /**
   * The dictionary after storing, section by section, what `entry` gives
   * for each, stopping at the first section it gives nothing for.
   */
  function SummaryFold(sections: seq<Section>, entry: Section -> Option<string>)
    : Result<map<string, string>, SummaryError>
    decreases |sections|
  {
    if |sections| == 0 then Success(map[])
    else
      var prev := SummaryFold(sections[..|sections| - 1], entry);
      var s := sections[|sections| - 1];
      if prev.Failure? then prev
      else match entry(s)
        case None => Failure(SummarizerFailed(s.title))
        case Some(v) => Success(prev.value[s.title := v])
  }

  /** The `summaries` dictionary after the loop over the given sections, or the first failure. */
  function SummaryMap(sections: seq<Section>, chunks: seq<string>, summarize: Summarizer)
    : Result<map<string, string>, SummaryError>
    requires SummarizesNonBlank(summarize)
  {
    SummaryFold(sections, EntryOf(chunks, summarize))
  }

  function Titles(sections: seq<Section>): set<string> {
    set k | 0 <= k < |sections| :: sections[k].title
  }

  /**
   * The loop fails exactly when some section's entry fails, and otherwise
   * the result has one key per section title.
   */
  lemma SummaryFoldKeys(sections: seq<Section>, entry: Section -> Option<string>)
    ensures SummaryFold(sections, entry).Failure? <==> exists k :: 0 <= k < |sections| && entry(sections[k]).None?
    ensures SummaryFold(sections, entry).Success? ==> SummaryFold(sections, entry).value.Keys == Titles(sections)
  {
    SummaryFoldFails(sections, entry);
    SummaryFoldDomain(sections, entry);
  }

  lemma {:induction false} SummaryFoldFails(sections: seq<Section>, entry: Section -> Option<string>)
    ensures SummaryFold(sections, entry).Failure? <==> exists k :: 0 <= k < |sections| && entry(sections[k]).None?
    decreases |sections|
  {
    if |sections| > 0 {
      var n := |sections| - 1;
      var init := sections[..n];
      SummaryFoldFails(init, entry);
      assert forall k :: 0 <= k < n ==> init[k] == sections[k];
    }
  }

  lemma {:induction false} SummaryFoldDomain(sections: seq<Section>, entry: Section -> Option<string>)
    ensures SummaryFold(sections, entry).Success? ==> SummaryFold(sections, entry).value.Keys == Titles(sections)
    decreases |sections|
  {
    if |sections| > 0 {
      var n := |sections| - 1;
      var init := sections[..n];
      SummaryFoldDomain(init, entry);
      assert forall k :: 0 <= k < n ==> init[k] == sections[k];
      assert Titles(sections) == Titles(init) + {sections[n].title};
    }
  }

  /** With distinct section titles, each title maps to its own section's entry. */
  lemma {:induction false} SummaryFoldValues(sections: seq<Section>, entry: Section -> Option<string>, k: nat)
    requires k < |sections|
    requires forall i, j :: 0 <= i < j < |sections| ==> sections[i].title != sections[j].title
    requires SummaryFold(sections, entry).Success?
    ensures entry(sections[k]).Some?
    ensures sections[k].title in SummaryFold(sections, entry).value
    ensures SummaryFold(sections, entry).value[sections[k].title] == entry(sections[k]).value
    decreases |sections|
  {
    SummaryFoldKeys(sections, entry);
    var init := sections[..|sections| - 1];
    if k < |sections| - 1 {
      assert init[k] == sections[k];
      SummaryFoldValues(init, entry, k);
    }
  }

  /**
   * Applied to the real loop body: the call fails exactly when the
   * summariser fails on some section; otherwise every section title is a
   * key, and with distinct titles each maps to the summary of its own
   * section text, or to "No content found for <title>." when that text is blank.
   */
  lemma SummaryMapValues(sections: seq<Section>, chunks: seq<string>,
                         summarize: Summarizer, k: nat)
    requires SummarizesNonBlank(summarize)
    requires k < |sections|
    requires forall i, j :: 0 <= i < j < |sections| ==> sections[i].title != sections[j].title
    ensures SummaryMap(sections, chunks, summarize).Failure? <==>
      exists i :: 0 <= i < |sections| && Entry(sections[i], chunks, summarize).None?
    ensures SummaryMap(sections, chunks, summarize).Success? ==>
      SummaryMap(sections, chunks, summarize).value.Keys == Titles(sections)
      && SummaryMap(sections, chunks, summarize).value[sections[k].title] == Entry(sections[k], chunks, summarize).value
  {
    var entry := EntryOf(chunks, summarize);
    SummaryFoldKeys(sections, entry);
    if SummaryFold(sections, entry).Success? {
      SummaryFoldValues(sections, entry, k);
    }
  }

  /** The summary of a section with no non-blank text is the "No content found" string. */
  lemma MissingSectionDefault(s: Section, chunks: seq<string>, summarize: Summarizer)
    requires SummarizesNonBlank(summarize)
    requires forall j :: 0 <= j < |[s.title] + s.fallbacks| ==> IsBlank(Collect(([s.title] + s.fallbacks)[j], chunks))
    ensures Entry(s, chunks, summarize) == Some(NoContent(s.title))
  {
    SectionTextFirstHit([s.title] + s.fallbacks, chunks);
  }

  /** A summariser call for one of the sections, made with that section's chosen, non-blank text. */
  predicate SummarizerCall(c: (string, string), sections: seq<Section>, chunks: seq<string>) {
    !IsBlank(c.1)
    && exists k :: 0 <= k < |sections| && c == (sections[k].title, SectionText([sections[k].title] + sections[k].fallbacks, chunks))
  }

  /** The question the loop puts to the summariser for one section: none when its text is blank. */
  function SectionCall(s: Section, chunks: seq<string>): seq<(string, string)> {
    var text := SectionText([s.title] + s.fallbacks, chunks);
    if IsBlank(text) then [] else [(s.title, text)]
  }

  function CallOf(chunks: seq<string>): Section -> seq<(string, string)> {
    s => SectionCall(s, chunks)
  }

  /**
   * The questions a loop with per-section body `entry` puts, `call(s)` for
   * section s, in section order, up to and including the section whose body
   * fails.
   */
  function CallsFold(sections: seq<Section>, entry: Section -> Option<string>, call: Section -> seq<(string, string)>)
    : seq<(string, string)>
    decreases |sections|
  {
    if |sections| == 0 then []
    else
      var init := sections[..|sections| - 1];
      if SummaryFold(init, entry).Failure? then CallsFold(init, entry, call)
      else CallsFold(init, entry, call) + call(sections[|sections| - 1])
  }

  /**
   * Every question the loop over `sections` puts to the summariser, in
   * section order, up to and including the one that fails.
   */
  function SummaryCalls(sections: seq<Section>, chunks: seq<string>, summarize: Summarizer): seq<(string, string)>
    requires SummarizesNonBlank(summarize)
  {
    CallsFold(sections, EntryOf(chunks, summarize), CallOf(chunks))
  }

  /** Once a prefix of the sections fails, no later section is put to the summariser. */
  lemma {:induction false} CallsFoldStopsAtFailure(
    sections: seq<Section>, entry: Section -> Option<string>, call: Section -> seq<(string, string)>, n: nat)
    requires n <= |sections|
    requires SummaryFold(sections[..n], entry).Failure?
    ensures CallsFold(sections, entry, call) == CallsFold(sections[..n], entry, call)
    decreases |sections| - n
  {
    if n < |sections| {
      var init := sections[..|sections| - 1];
      assert init[..n] == sections[..n];
      SummaryFoldStopsAtFailure(init, entry, n);
      CallsFoldStopsAtFailure(init, entry, call, n);
    } else {
      assert sections[..n] == sections;
    }
  }

  /**
   * The loop of summary_utils.py:43-64 over the sections. The ghost
   * `calls` records every question put to the summariser.
   */
  method FillSummaries(sections: seq<Section>, chunks: seq<string>, summarize: Summarizer)
    returns (r: Result<map<string, string>, SummaryError>, ghost calls: seq<(string, string)>)
    requires SummarizesNonBlank(summarize)
    ensures r == SummaryMap(sections, chunks, summarize)
    ensures calls == SummaryCalls(sections, chunks, summarize)
    ensures forall c :: c in calls ==> SummarizerCall(c, sections, chunks)
  {
    var summaries: map<string, string> := map[];
    calls := [];
    var i := 0;
    while i < |sections|
      invariant 0 <= i <= |sections|
      invariant SummaryMap(sections[..i], chunks, summarize) == Success(summaries)
      invariant calls == SummaryCalls(sections[..i], chunks, summarize)
      invariant forall c :: c in calls ==> SummarizerCall(c, sections, chunks)
    {
      var s := sections[i];
      assert sections[..i + 1][..i] == sections[..i];
      var sectionText := SelectSectionText(s.title, s.fallbacks, chunks);
      if !IsBlank(sectionText) {
        calls := calls + [(s.title, sectionText)];
        var summary := summarize(s.title, sectionText);
        if summary.None? {
          r := Failure(SummarizerFailed(s.title));
          SummaryFoldStopsAtFailure(sections, EntryOf(chunks, summarize), i + 1);
          CallsFoldStopsAtFailure(sections, EntryOf(chunks, summarize), CallOf(chunks), i + 1);
          return;
        }
        summaries := summaries[s.title := summary.value];
      } else {
        summaries := summaries[s.title := NoContent(s.title)];
      }
      i := i + 1;
    }
    assert sections[..i] == sections;
    r := Success(summaries);
  }

  /**
   * `summarize_sections`: strip the headers of the pages in place, split
   * them into chunks, then fill the dictionary section by section.
   */
  method SummarizeSections(
    pages: array<string>, sections: seq<Section>,
    split: seq<string> -> seq<string>, summarize: Summarizer)
    returns (r: Result<map<string, string>, SummaryError>, ghost calls: seq<(string, string)>)
    requires SummarizesNonBlank(summarize)
    modifies pages
    ensures forall k :: 0 <= k < pages.Length ==> pages[k] == StripHeader(old(pages[k]))
    ensures r == SummaryMap(sections, split(pages[..]), summarize)
    ensures calls == SummaryCalls(sections, split(pages[..]), summarize)
    ensures forall c :: c in calls ==> SummarizerCall(c, sections, split(pages[..]))
  {
    StripHeaders(pages);
    r, calls := FillSummaries(sections, split(pages[..]), summarize);
  }

  /** Once a prefix of the sections fails, every longer prefix fails the same way. */
  lemma {:induction false} SummaryFoldStopsAtFailure(sections: seq<Section>, entry: Section -> Option<string>, n: nat)
    requires n <= |sections|
    requires SummaryFold(sections[..n], entry).Failure?
    ensures SummaryFold(sections, entry) == SummaryFold(sections[..n], entry)
    decreases |sections| - n
  {
    if n < |sections| {
      var m := |sections| - 1;
      if n < m {
        assert sections[..m][..n] == sections[..n];
        SummaryFoldStopsAtFailure(sections[..m], entry, n);
      } else {
        assert sections[..n] == sections[..m];
      }
    } else {
      assert sections[..n] == sections;
    }
  }
}
