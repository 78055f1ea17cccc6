/** The HTML produced by the render handlers (backend/controllers/renderController.js):
    `renderDiagramHtml` builds a page from a request body, `renderDiagramPage` serves a
    stored chart behind the same read gate as the chart handlers. A page is fixed text
    around three slots (title, heading, diagram source); `Read` recovers the slots, and
    filling then reading gives back what was filled in. */
module RenderPages {
  import opened Common
  import opened ChartModel
  import ChartController

  /** The fixed text of a page, around its title, heading and diagram slots. */
  datatype Template = Template(head: string, afterTitle: string, afterHeading: string, tail: string)

  datatype Slots = Slots(title: string, heading: Option<string>, body: string)

  datatype HtmlResponse = Html(html: string) | Failure(status: int, message: string)

  function Status(r: HtmlResponse): int
  {
    match r
    case Html(_) => 200
    case Failure(status, _) => status
  }

  const PageHead :=
    "\n<!DOCTYPE html>\n<html>\n<head>\n  <meta charset=\"UTF-8\">\n"
    + "  <meta name=\"viewport\" content=\"width=device-width, initial-scale=1.0\">\n  <title>"

  const ZoomButtons :=
    "\n    <div class=\"zoom-controls\">\n"
    + "      <button class=\"zoom-out\" title=\"Zoom Out\">-</button>\n"
    + "      <button class=\"zoom-reset\" title=\"Reset Zoom\">\U{21BA}</button>\n"
    + "      <button class=\"zoom-in\" title=\"Zoom In\">+</button>\n"
    + "    </div>\n    <div id=\"mermaid-container\" class=\"mermaid-container\">\n"
    + "      <div id=\"mermaid-content\" class=\"mermaid\">\n"

  const Scripts :=
    "  <script src=\"/js/mermaid.min.js\"></script>\n"
    + "  <script src=\"/js/zoom-controls.js\"></script>\n"
    + "  <script>/* mermaid.initialize */</script>\n</body>\n</html>"

  /** The page `renderDiagramHtml` returns (style and script bodies abbreviated). */
  const DiagramHtml := Template(
    PageHead,
    "</title>" + "\n  <style>/* page styles */</style>\n</head>\n<body>\n  <div class=\"container\">\n    ",
    ZoomButtons,
    "\n      </div>\n    </div>\n    <script>/* zoom buttons */</script>\n  </div>\n" + Scripts)

  /** The page `renderDiagramPage` sends (style and script bodies abbreviated). */
  const ChartPage := Template(
    PageHead,
    "</title>" + "\n  <style>/* page and footer styles */</style>\n</head>\n<body>\n  <div class=\"container\">\n    ",
    ZoomButtons,
    "\n      </div>\n    </div>\n    <script>/* zoom buttons */</script>\n"
    + "    <div class=\"footer\">\n      <p>Created with <a href=\"/\">Mermadic</a></p>\n    </div>\n  </div>\n"
    + Scripts)

  const DefaultTitle := "Mermaid Diagram"
  const TitleSuffix := " - Mermadic"

  /** Text that cannot be mistaken for markup: no tag can start inside it. */
  predicate NoTag(s: string)
  {
    '<' !in s
  }

  /** The slots can be told apart from the fixed text around them. */
  predicate Separable(t: Template)
  {
    && |t.afterTitle| > 0 && t.afterTitle[0] == '<'
    && |t.afterHeading| > 0 && t.afterHeading[0] != '<'
  }

  function HeadingMarkup(heading: Option<string>): string
  {
    match heading
    case None => ""
    case Some(h) => "<h1>" + h + "</h1>"
  }

  /** Interpolation of the slots into the template, as the handlers' template literals do. */
  function Fill(t: Template, title: string, heading: Option<string>, body: string): string
  {
    t.head + (title + (t.afterTitle + (HeadingMarkup(heading) + (t.afterHeading + (body + t.tail)))))
  }

  /** The text up to the first '<'. */
  function TextBeforeTag(s: string): (r: string)
    ensures r <= s && NoTag(r)
  {
    if s == [] || s[0] == '<' then [] else [s[0]] + TextBeforeTag(s[1..])
  }

  /** An optional `<h1>…</h1>` at the front, and what follows it. */
  function ReadHeading(s: string): Option<(Option<string>, string)>
  {
    if "<h1>" <= s then
      var h := TextBeforeTag(s[4..]);
      var rest := s[4 + |h|..];
      if "</h1>" <= rest then Some((Some(h), rest[5..])) else None
    else Some((None, s))
  }

  /** Recovers the slots of a page built from `t`; `None` when the text does not fit it. */
  function Read(t: Template, html: string): Option<Slots>
  {
    if !(t.head <= html) then None
    else
      var afterHead := html[|t.head|..];
      var title := TextBeforeTag(afterHead);
      var afterTitleSlot := afterHead[|title|..];
      if !(t.afterTitle <= afterTitleSlot) then None
      else
        match ReadHeading(afterTitleSlot[|t.afterTitle|..])
        case None => None
        case Some((heading, rest)) =>
          if !(t.afterHeading <= rest) then None
          else
            var bodyAndTail := rest[|t.afterHeading|..];
            var n := |bodyAndTail| - |t.tail|;
            if n < 0 || bodyAndTail[n..] != t.tail then None
            else Some(Slots(title, heading, bodyAndTail[..n]))
  }

  lemma SplitAt(a: string, b: string)
    ensures a <= a + b && (a + b)[|a|..] == b
  {
  }

  lemma {:induction false} TextBeforeTagStops(a: string, b: string)
    requires NoTag(a) && |b| > 0 && b[0] == '<'
    ensures TextBeforeTag(a + b) == a
  {
    if a != [] {
      assert (a + b)[1..] == a[1..] + b;
      TextBeforeTagStops(a[1..], b);
    } else {
      assert a + b == b;
    }
  }

  lemma ReadHeadingOf(heading: Option<string>, rest: string)
    requires heading.Some? ==> NoTag(heading.value)
    requires !("<h1>" <= rest)
    ensures ReadHeading(HeadingMarkup(heading) + rest) == Some((heading, rest))
  {
    match heading
    case None =>
      assert HeadingMarkup(heading) + rest == rest;
    case Some(h) =>
      var s := HeadingMarkup(heading) + rest;
      assert s == "<h1>" + (h + ("</h1>" + rest));
      SplitAt("<h1>", h + ("</h1>" + rest));
      TextBeforeTagStops(h, "</h1>" + rest);
      assert s[4 + |h|..] == "</h1>" + rest;
      SplitAt("</h1>", rest);
  }

  /** Filling a template and reading it back gives the slots that were filled in, as long
      as title and heading contain no '<'; the diagram source may be any text. */
  lemma ReadFill(t: Template, title: string, heading: Option<string>, body: string)
    requires Separable(t)
    requires NoTag(title) && (heading.Some? ==> NoTag(heading.value))
    ensures Read(t, Fill(t, title, heading, body)) == Some(Slots(title, heading, body))
  {
    var s4 := body + t.tail;
    var s3 := t.afterHeading + s4;
    var s2 := HeadingMarkup(heading) + s3;
    var s1 := t.afterTitle + s2;
    var s0 := title + s1;
    SplitAt(t.head, s0);
    TextBeforeTagStops(title, s1);
    SplitAt(title, s1);
    SplitAt(t.afterTitle, s2);
    assert s3[0] == t.afterHeading[0];
    ReadHeadingOf(heading, s3);
    SplitAt(t.afterHeading, s4);
    assert s4[|body|..] == t.tail && s4[..|body|] == body;
  }

  lemma TemplatesSeparable()
    ensures Separable(DiagramHtml) && Separable(ChartPage)
  {
    assert ZoomButtons[0] == '\n';
    assert DiagramHtml.afterTitle[0] == '<';
    assert ChartPage.afterTitle[0] == '<';
  }

  /** `ReadFill` for the two pages the handlers send. */
  lemma ReadPage(t: Template, title: string, heading: Option<string>, body: string)
    requires t == DiagramHtml || t == ChartPage
    ensures NoTag(title) && (heading.Some? ==> NoTag(heading.value)) ==>
              Read(t, Fill(t, title, heading, body)) == Some(Slots(title, heading, body))
  {
    if NoTag(title) && (heading.Some? ==> NoTag(heading.value)) {
      TemplatesSeparable();
      ReadFill(t, title, heading, body);
    }
  }

  /** `title || 'Mermaid Diagram'`: the text of the `<title>` element. */
  function PageTitle(title: Option<string>): string
  {
    if Provided(title) then title.value else DefaultTitle
  }

  /** `title ? title : ''` in `<h1>`: a heading only when a title is given. */
  function HeadingOf(title: Option<string>): Option<string>
  {
    if Provided(title) then Some(title.value) else None
  }

  /** `renderDiagramHtml`: 400 without content; otherwise the page whose `<title>` is the
      given title or "Mermaid Diagram", with an `<h1>` only when a title is given, and the
      diagram source inserted verbatim. */
  function RenderDiagramHtml(content: Option<string>, title: Option<string>): (r: HtmlResponse)
    ensures !Provided(content) <==> r == Failure(400, "Diagram content is required")
    ensures Provided(content) ==> r.Html?
    ensures r.Html? && (Provided(title) ==> NoTag(title.value)) ==>
              Read(DiagramHtml, r.html) == Some(Slots(PageTitle(title), HeadingOf(title), content.value))
  {
    if !Provided(content) then Failure(400, "Diagram content is required")
    else
      ReadDiagramHtml(content.value, title);
      Html(Fill(DiagramHtml, PageTitle(title), HeadingOf(title), content.value))
  }

  lemma ReadDiagramHtml(content: string, title: Option<string>)
    ensures (Provided(title) ==> NoTag(title.value)) ==>
              Read(DiagramHtml, Fill(DiagramHtml, PageTitle(title), HeadingOf(title), content))
                == Some(Slots(PageTitle(title), HeadingOf(title), content))
  {
    if Provided(title) ==> NoTag(title.value) {
      assert NoTag(DefaultTitle);
      ReadPage(DiagramHtml, PageTitle(title), HeadingOf(title), content);
    }
  }

  /** `renderDiagramPage`: the chart handlers' read gate, with the same statuses and
      messages, then the chart's page: "<title> - Mermadic" as its title, the title as
      its heading, and the stored source as its diagram. */
  function RenderDiagramPage(table: ChartTable, session: Session, id: nat): (r: HtmlResponse)
    reads table
    requires table.Valid()
    ensures var gate := ChartController.GetChartById(table, session, id);
      && Status(r) == ChartController.Status(gate)
      && (r.Failure? ==> gate.Failure? && r.message == gate.message)
    ensures r.Html? ==> id in table.rows
    ensures r.Html? && NoTag(table.rows[id].title) ==>
              var c := table.rows[id];
              Read(ChartPage, r.html) == Some(Slots(c.title + TitleSuffix, Some(c.title), c.content))
  {
    var found := table.FindById(id);
    if found.None? then Failure(404, "Chart not found")
    else
      var chart := found.value;
      if chart.public == 0 && (session.None? || chart.userId != session.value.id) then
        Failure(403, "Not authorized to view this chart")
      else
        ReadChartPage(chart.title, chart.content);
        Html(Fill(ChartPage, chart.title + TitleSuffix, Some(chart.title), chart.content))
  }

  lemma ReadChartPage(title: string, content: string)
    ensures NoTag(title) ==>
              Read(ChartPage, Fill(ChartPage, title + TitleSuffix, Some(title), content))
                == Some(Slots(title + TitleSuffix, Some(title), content))
  {
    if NoTag(title) {
      assert NoTag(title + TitleSuffix);
      ReadPage(ChartPage, title + TitleSuffix, Some(title), content);
    }
  }
}
