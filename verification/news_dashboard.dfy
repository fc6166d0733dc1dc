/** `components/NewsDashboard.tsx`: the feed list and its text download.

    Each row shows a category badge and a relevance dot whose colours come from two fixed
    tables, and its speak and archive buttons are disabled once the article is archived.
    The download builds one trimmed text block per article, joined by blank lines, under a
    file name stamped with the local date and time; the clock is a parameter here.
 */
module NewsDashboard {
  import opened Basics
  import opened Text
  import opened Types
  import Gemini
  import Processing
  import App

  // ---------------------------------------------------------------- badge colours

  const RegulatoryClass := "bg-red-100 text-red-800"
  const CommercialClass := "bg-green-100 text-green-800"
  const LegalClass := "bg-yellow-100 text-yellow-800"
  const FinancialClass := "bg-blue-100 text-blue-800"
  const ConferenceClass := "bg-indigo-100 text-indigo-800"
  const GrayClass := "bg-gray-100 text-gray-800"

  /** The five categories the prompt offers, each with a colour of its own. */
  const NamedCategories: seq<string> := [
    "Regulatory Updates", "Commercial & Market Access", "Legal & IP Developments",
    "Financial & Corporate", "Conference & Research"]

  /** `getCategoryColor`: a named category gets its own class, anything else gray. */
  function CategoryColor(category: string): (c: string)
    ensures c == GrayClass <==> category !in NamedCategories
  {
    if category == "Regulatory Updates" then RegulatoryClass
    else if category == "Commercial & Market Access" then CommercialClass
    else if category == "Legal & IP Developments" then LegalClass
    else if category == "Financial & Corporate" then FinancialClass
    else if category == "Conference & Research" then ConferenceClass
    else GrayClass
  }

  /** No two named categories share a colour, so the badge tells them apart. */
  lemma CategoryColorsDistinct(a: string, b: string)
    requires a in NamedCategories && b in NamedCategories && a != b
    ensures CategoryColor(a) != CategoryColor(b)
  {
    assert NamedCategories[0] == "Regulatory Updates";
  }

  const HighClass := "bg-red-500"
  const MediumClass := "bg-yellow-500"
  const LowClass := "bg-green-500"

  /** `getRelevanceColor`: red above 7, yellow above 4, green otherwise. */
  function RelevanceColor(score: int): (c: string)
    ensures c == HighClass <==> score > 7
    ensures c == MediumClass <==> 4 < score <= 7
    ensures c == LowClass <==> score <= 4
  {
    if score > 7 then HighClass
    else if score > 4 then MediumClass
    else LowClass
  }

  /** How alarming a relevance colour is: green 0, yellow 1, red 2. */
  function Urgency(c: string): nat
  {
    if c == HighClass then 2 else if c == MediumClass then 1 else 0
  }

  /** A higher score never shows a calmer colour. */
  lemma RelevanceColorMonotone(a: int, b: int)
    requires a <= b
    ensures Urgency(RelevanceColor(a)) <= Urgency(RelevanceColor(b))
  {
  }

  /** An article the model could not analyse shows a gray badge and a green dot. */
  lemma FallbackColours(a: RawArticle)
    ensures var p := Processing.Merge(a, Gemini.Fallback);
      CategoryColor(p.category) == GrayClass && RelevanceColor(p.relevanceScore) == LowClass
  {
  }

  // ---------------------------------------------------------------- feed download

  /** Ten dashes, a fifth of the rule. */
  const Dashes := "----------"
  /** The fifty-dash rule framing each block. */
  const Rule := Dashes + Dashes + Dashes + Dashes + Dashes

  /** One article's block, as it is after trimming. */
  function FeedBlock(a: ProcessedArticle): string
  {
    Rule + FeedFields(a) + Rule
  }

  /** The lines between the two rules. */
  function FeedFields(a: ProcessedArticle): string
  {
    "\nTitle: " + a.title
      + "\nCompany: " + a.companyName
      + "\nLink: " + a.link
      + "\nCategory: " + a.category + " (" + a.subCategory + ")"
      + "\nRelevance Score: " + IntToString(a.relevanceScore) + "/10"
      + "\nSummary: " + a.summary
      + "\n"
  }

  /** The template literal before `.trim()`: a leading newline and the closing line's
      indentation around the block. */
  function FeedTemplate(a: ProcessedArticle): string
  {
    "\n" + FeedBlock(a) + "\n            "
  }

  /** Trimming the template removes exactly the padding: the block starts and ends with a
      rule, which no field can disturb. */
  lemma FeedTemplateTrims(a: ProcessedArticle)
    ensures Trim(FeedTemplate(a)) == FeedBlock(a)
  {
    var b := FeedBlock(a);
    assert Dashes[0] == '-' && Dashes[|Dashes| - 1] == '-';
    assert Rule[0] == '-' && Rule[|Rule| - 1] == '-';
    assert b[0] == (Rule + FeedFields(a))[0] == Rule[0];
    assert b[|b| - 1] == Rule[|Rule| - 1];
    assert AllWhitespace("\n") by {
      assert IsWhitespace('\n');
    }
    assert AllWhitespace("\n            ") by {
      assert IsWhitespace('\n') && IsWhitespace(' ');
    }
    TrimPadded("\n", b, "\n            ");
  }

  /** One article's export entry: its template, trimmed. */
  function TrimmedBlock(a: ProcessedArticle): string
  {
    Trim(FeedTemplate(a))
  }

  /** The file's content: the blocks joined by a blank line. */
  function FeedContent(articles: seq<ProcessedArticle>): (r: string)
    ensures |articles| == 0 ==> r == ""
    ensures |articles| > 0 ==> FeedBlock(articles[0]) <= r
  {
    if |articles| == 0 then ""
    else
      FeedTemplateTrims(articles[0]);
      Join(Map(TrimmedBlock, articles), "\n\n")
  }

  /** The content is the framed blocks themselves joined: trimming loses nothing. */
  lemma FeedContentIsBlocks(articles: seq<ProcessedArticle>)
    ensures FeedContent(articles) == Join(Map(FeedBlock, articles), "\n\n")
  {
    forall i | 0 <= i < |articles|
      ensures TrimmedBlock(articles[i]) == FeedBlock(articles[i])
    {
      FeedTemplateTrims(articles[i]);
    }
    assert Map(TrimmedBlock, articles) == Map(FeedBlock, articles);
  }

  /** One article gives its block; each further article adds a blank line and its block. */
  lemma FeedContentShape(articles: seq<ProcessedArticle>, a: ProcessedArticle)
    ensures FeedContent([a]) == FeedBlock(a)
    ensures |articles| > 0 ==> FeedContent(articles + [a]) == FeedContent(articles) + "\n\n" + FeedBlock(a)
  {
    FeedContentIsBlocks([a]);
    FeedContentIsBlocks(articles);
    FeedContentIsBlocks(articles + [a]);
    JoinMapSnoc(FeedBlock, articles, a, "\n\n");
  }

  /** The local date and time the file name is stamped with; `month` is zero-based, as
      `Date.getMonth` returns it. */
  datatype Clock = Clock(year: nat, month: nat, day: nat, hours: nat, minutes: nat)

  predicate ValidClock(c: Clock)
  {
    c.month < 12 && 1 <= c.day <= 31 && c.hours < 24 && c.minutes < 60
  }

  const FeedPrefix := "Pharma-Intel-News-Feed_"

  /** `YYYY-MM-DD_HH-mm`, with the month shifted to one-based and each field but the year
      padded to two digits. */
  function Timestamp(c: Clock): string
  {
    NatToString(c.year) + TimeTail(c)
  }

  function TimeTail(c: Clock): string
  {
    "-" + TwoDigits(c.month + 1) + "-" + TwoDigits(c.day) + "_" + TwoDigits(c.hours) + "-" + TwoDigits(c.minutes)
  }

  function FeedFilename(c: Clock): (r: string)
    ensures |r| > |FeedPrefix| + 4
    ensures r[..|FeedPrefix|] == FeedPrefix && r[|r| - 4..] == ".txt"
  {
    FeedPrefix + Timestamp(c) + ".txt"
  }

  /** Reads the month, day, hours and minutes back from the sixteen characters after the
      year (the year is left at zero). */
  function ParseTimeTail(t: string): (r: Option<Clock>)
    requires |t| == 16
  {
    if && t[0] == '-' && AllDigits(t[1..3]) && t[3] == '-' && AllDigits(t[4..6])
       && t[6] == '_' && AllDigits(t[7..9]) && t[9] == '-' && AllDigits(t[10..12])
       && t[12..] == ".txt" && TwoDigitValue(t[1..3]) >= 1
    then Some(Clock(0, TwoDigitValue(t[1..3]) - 1, TwoDigitValue(t[4..6]), TwoDigitValue(t[7..9]), TwoDigitValue(t[10..12])))
    else None
  }

  /** Reads a clock back from a feed file name; the inverse of `FeedFilename`. */
  function ParseFeedFilename(s: string): (r: Option<Clock>)
  {
    var p := |FeedPrefix|;
    if |s| < p + 17 || s[..p] != FeedPrefix || !AllDigits(s[p..|s| - 16]) then None
    else
      match ParseTimeTail(s[|s| - 16..])
      case None => None
      case Some(c) => Some(c.(year := ParseNat(s[p..|s| - 16])))
  }

  /** Any four two-digit fields, laid out as the time tail, read back field by field. */
  lemma ParseTailFields(mo: string, d: string, h: string, mi: string)
    requires |mo| == 2 && |d| == 2 && |h| == 2 && |mi| == 2
    requires AllDigits(mo) && AllDigits(d) && AllDigits(h) && AllDigits(mi)
    requires TwoDigitValue(mo) >= 1
    ensures |"-" + mo + "-" + d + "_" + h + "-" + mi + ".txt"| == 16
    ensures ParseTimeTail("-" + mo + "-" + d + "_" + h + "-" + mi + ".txt")
      == Some(Clock(0, TwoDigitValue(mo) - 1, TwoDigitValue(d), TwoDigitValue(h), TwoDigitValue(mi)))
  {
    var t := "-" + mo + "-" + d + "_" + h + "-" + mi + ".txt";
    assert t[1..3] == mo;
    assert t[4..6] == d;
    assert t[7..9] == h;
    assert t[10..12] == mi;
    assert t[12..] == ".txt";
  }

  lemma TimeTailRoundTrip(c: Clock)
    requires ValidClock(c)
    ensures |TimeTail(c) + ".txt"| == 16
    ensures ParseTimeTail(TimeTail(c) + ".txt") == Some(c.(year := 0))
  {
    TwoDigitsRoundTrip(c.month + 1);
    TwoDigitsRoundTrip(c.day);
    TwoDigitsRoundTrip(c.hours);
    TwoDigitsRoundTrip(c.minutes);
    ParseTailFields(TwoDigits(c.month + 1), TwoDigits(c.day), TwoDigits(c.hours), TwoDigits(c.minutes));
  }

  /** Every clock a `Date` can give comes back unchanged from its file name. */
  lemma FeedFilenameRoundTrip(c: Clock)
    requires ValidClock(c)
    ensures ParseFeedFilename(FeedFilename(c)) == Some(c)
  {
    var s := FeedFilename(c);
    var y := NatToString(c.year);
    var t := TimeTail(c) + ".txt";
    TimeTailRoundTrip(c);
    assert s == FeedPrefix + y + t;
    var p := |FeedPrefix|;
    assert s[..p] == FeedPrefix;
    assert s[p..|s| - 16] == y;
    assert s[|s| - 16..] == t;
    ParseNatToString(c.year);
  }

  /** A feed file: its name and content. */
  datatype FeedFile = FeedFile(name: string, content: string)

  /** `handleDownloadFeed`: nothing for an empty feed, otherwise the stamped file. */
  function DownloadFeed(articles: seq<ProcessedArticle>, now: Clock): (r: Option<FeedFile>)
    ensures r.None? <==> articles == []
    ensures r.Some? ==> r.value.content == FeedContent(articles)
    ensures r.Some? && ValidClock(now) ==> ParseFeedFilename(r.value.name) == Some(now)
  {
    if |articles| == 0 then None
    else
      assert ValidClock(now) ==> ParseFeedFilename(FeedFilename(now)) == Some(now) by {
        if ValidClock(now) {
          FeedFilenameRoundTrip(now);
        }
      }
      Some(FeedFile(FeedFilename(now), FeedContent(articles)))
  }
}
