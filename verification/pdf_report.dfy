/** `services/pdfService.ts`: the plain-text briefing.

    The report is a header holding the executive summary, followed by one section per article
    that is not archived and scores above 3, in input order.  A section is numbered by its
    article's position in the input list plus one.  The date line takes the already
    formatted date as a parameter.
 */
module PdfReport {
  import opened Text
  import opened Types

  /** The condition the briefing (and the report preview) selects articles by. */
  predicate IsActive(a: ProcessedArticle)
  {
    a.status != Archived && a.relevanceScore > 3
  }

  const Title := "\n# Pharma-Intel AI: Daily Biosimilar Market Briefing\nDate: "

  /** The text before the summary. */
  function HeaderLead(date: string): string
  {
    Title + date + "\n\n## Executive Summary\n"
  }

  function Header(date: string, summary: string): string
  {
    HeaderLead(date) + summary + "\n\n---\n\n## Top News Details\n"
  }

  /** The section for an article numbered `n`. */
  function Section(n: nat, a: ProcessedArticle): string
  {
    "\n### " + NatToString(n) + SectionFields(a) + a.summary + "\n---\n"
  }

  /** Everything between the section number and the summary. */
  function SectionFields(a: ProcessedArticle): string
  {
    ". " + a.title
      + "\n- **Category:** " + a.category + " (" + a.subCategory + ")"
      + "\n- **Relevance Score:** " + IntToString(a.relevanceScore) + "/10"
      + "\n- **Source:** " + a.companyName
      + "\n- **Link:** " + a.link
      + "\n- **Summary:** "
  }

  /** The layout of a section around arbitrary pieces: the opening, the number right after
      it, the field lines, and the closing at the end. */
  lemma SectionLayout(num: string, f: string, tail: string)
    ensures var sec := "\n### " + num + f + tail;
      && |sec| >= 5 + |num| + |tail|
      && sec[..5] == "\n### "
      && sec[5..5 + |num|] == num
      && sec[|sec| - |tail|..] == tail
      && sec[5 + |num|..|sec| - |tail|] == f
  {
    var sec := "\n### " + num + f + tail;
    assert sec == "\n### " + (num + (f + tail));
  }

  /** A section opens with its number, carries the article's field lines, and closes with
      the summary and a rule. */
  lemma SectionFraming(n: nat, a: ProcessedArticle)
    ensures var sec := Section(n, a);
      var num := NatToString(n);
      var tail := a.summary + "\n---\n";
      && |sec| >= 5 + |num| + |tail|
      && sec[..5] == "\n### "
      && sec[5..5 + |num|] == num
      && sec[|sec| - |tail|..] == tail
      && sec[5 + |num|..|sec| - |tail|] == SectionFields(a)
  {
    var tail := a.summary + "\n---\n";
    SectionLayout(NatToString(n), SectionFields(a), tail);
    assert Section(n, a) == "\n### " + NatToString(n) + SectionFields(a) + tail;
  }

  /** The `forEach` over the articles, numbering from `start`. */
  function Sections(articles: seq<ProcessedArticle>, start: nat): string
    decreases |articles|
  {
    if |articles| == 0 then ""
    else (if IsActive(articles[0]) then Section(start, articles[0]) else "") + Sections(articles[1..], start + 1)
  }

  /** `generatePdfReport`: the header, then one section per entry of the article list. */
  function GeneratePdfReport(articles: seq<ProcessedArticle>, summary: string, date: string): (r: string)
    ensures r == Header(date, summary) + Render(Entries(articles, 1))
  {
    SectionsRenderEntries(articles, 1);
    Header(date, summary) + Sections(articles, 1)
  }

  /** A section to be emitted: the number it carries and its article. */
  datatype NumberedArticle = NumberedArticle(number: nat, article: ProcessedArticle)

  /** `e` is the section for the article at position `e.number - start` of `articles`, and that
      article is active. */
  predicate EntryOf(e: NumberedArticle, articles: seq<ProcessedArticle>, start: nat)
  {
    start <= e.number < start + |articles| && articles[e.number - start] == e.article && IsActive(e.article)
  }

  /** The sections the report holds, as data: the active articles with their numbers. */
  function Entries(articles: seq<ProcessedArticle>, start: nat): (es: seq<NumberedArticle>)
    ensures |es| <= |articles|
    ensures forall k :: 0 <= k < |es| ==> EntryOf(es[k], articles, start)
    decreases |articles|
  {
    if |articles| == 0 then []
    else
      var rest := Entries(articles[1..], start + 1);
      assert forall k :: 0 <= k < |rest| ==> EntryOf(rest[k], articles, start) by {
        forall k | 0 <= k < |rest|
          ensures EntryOf(rest[k], articles, start)
        {
          assert EntryOf(rest[k], articles[1..], start + 1);
          assert articles[1..][rest[k].number - (start + 1)] == articles[rest[k].number - start];
        }
      }
      (if IsActive(articles[0]) then [NumberedArticle(start, articles[0])] else []) + rest
  }

  /** Section numbers strictly increase through the report. */
  predicate Increasing(es: seq<NumberedArticle>)
  {
    forall k, l :: 0 <= k < l < |es| ==> es[k].number < es[l].number
  }

  lemma {:induction false} EntriesIncreasing(articles: seq<ProcessedArticle>, start: nat)
    ensures Increasing(Entries(articles, start))
    decreases |articles|
  {
    if |articles| > 0 {
      EntriesIncreasing(articles[1..], start + 1);
      var rest := Entries(articles[1..], start + 1);
      assert Increasing(rest);
      assert forall k :: 0 <= k < |rest| ==> start < rest[k].number by {
        assert forall k :: 0 <= k < |rest| ==> EntryOf(rest[k], articles[1..], start + 1);
      }
      var es := Entries(articles, start);
      if IsActive(articles[0]) {
        assert es == [NumberedArticle(start, articles[0])] + rest;
        forall k, l | 0 <= k < l < |es|
          ensures es[k].number < es[l].number
        {
          assert es[l] == rest[l - 1];
          if k > 0 {
            assert es[k] == rest[k - 1];
          }
        }
      } else {
        assert es == rest;
      }
    }
  }

  function Render(es: seq<NumberedArticle>): string
  {
    if |es| == 0 then "" else Section(es[0].number, es[0].article) + Render(es[1..])
  }

  /** The loop emits exactly the sections of `Entries`, in order. */
  lemma {:induction false} SectionsRenderEntries(articles: seq<ProcessedArticle>, start: nat)
    ensures Sections(articles, start) == Render(Entries(articles, start))
    decreases |articles|
  {
    if |articles| > 0 {
      SectionsRenderEntries(articles[1..], start + 1);
      var rest := Entries(articles[1..], start + 1);
      var es := Entries(articles, start);
      if IsActive(articles[0]) {
        assert es == [NumberedArticle(start, articles[0])] + rest;
        assert es[1..] == rest;
        calc {
          Render(es);
          Section(start, articles[0]) + Render(rest);
          Section(start, articles[0]) + Sections(articles[1..], start + 1);
          Sections(articles, start);
        }
      } else {
        assert es == rest;
        assert Sections(articles, start) == "" + Sections(articles[1..], start + 1);
      }
    }
  }

  /** On a list of active articles, the sections are numbered 1, 2, ..., k with no gap. */
  lemma {:induction false} EntriesOfActiveList(articles: seq<ProcessedArticle>, start: nat)
    requires forall i :: 0 <= i < |articles| ==> IsActive(articles[i])
    ensures var es := Entries(articles, start);
      && |es| == |articles|
      && forall k :: 0 <= k < |es| ==> es[k] == NumberedArticle(start + k, articles[k])
    decreases |articles|
  {
    if |articles| > 0 {
      EntriesOfActiveList(articles[1..], start + 1);
    }
  }

  /** The report opens with the title header and then the executive summary verbatim. */
  lemma ReportOpensWithSummary(articles: seq<ProcessedArticle>, summary: string, date: string)
    ensures var r := GeneratePdfReport(articles, summary, date);
      var lead := HeaderLead(date);
      && |lead| + |summary| <= |r|
      && r[..|Title|] == Title
      && r[|lead|..|lead| + |summary|] == summary
  {
    var lead := HeaderLead(date);
    var r := GeneratePdfReport(articles, summary, date);
    assert r == lead + (summary + ("\n\n---\n\n## Top News Details\n" + Sections(articles, 1)));
    assert lead[..|Title|] == Title;
  }
}
