/** The chart request handlers (backend/controllers/chartController.js): a fixed order
    of checks (401, 400, 404, 403) in front of the `Chart` model. */
module ChartController {
  import opened Common
  import opened ChartModel
  import Hex

  /** The JSON body of a create or update request. */
  datatype ChartBody = ChartBody(title: Option<string>, content: Option<string>, isPublic: JsValue)

  datatype Response =
    | Created(message: string, created: NewChart)
    | ChartList(charts: seq<Chart>)
    | ChartFound(chart: Chart)
    | Changed(message: string, changes: nat)
    | Failure(status: int, message: string)

  function Status(r: Response): int
  {
    match r
    case Created(_, _) => 201
    case Failure(status, _) => status
    case _ => 200
  }

  const NotAuthenticated := "Not authenticated"
  const MissingFields := "Please provide title and content"
  const NotFound := "Chart not found"
  const NotAuthorizedToView := "Not authorized to view this chart"

  /** Who may read a chart: anyone when it is public, otherwise only its owner. */
  predicate MayView(session: Session, chart: Chart)
  {
    chart.public != 0 || (session.Some? && chart.userId == session.value.id)
  }

  predicate HasTitleAndContent(body: ChartBody)
  {
    Provided(body.title) && Provided(body.content)
  }

  /** The read gate shared by the two lookups: 404 without a row, 403 for a private
      row and a requester who is not its owner, else the row. */
  function ShowChart(session: Session, found: Option<Chart>): (r: Response)
    ensures Status(r) == 404 <==> found.None?
    ensures Status(r) == 403 <==>
              found.Some? && found.value.public == 0
              && (session.None? || found.value.userId != session.value.id)
    ensures Status(r) == 200 <==> found.Some? && MayView(session, found.value)
    ensures Status(r) == 200 ==> r == ChartFound(found.value)
  {
    match found
    case None => Failure(404, NotFound)
    case Some(chart) =>
      if chart.public == 0 && (session.None? || chart.userId != session.value.id) then
        Failure(403, NotAuthorizedToView)
      else ChartFound(chart)
  }

  /** `createChart`: 401 without a session, 400 without title or content, otherwise an
      insert owned by the session user: 201, or 500 when the insert is rejected. */
  method CreateChart(table: ChartTable, session: Session, body: ChartBody, random: seq<bv8>, now: int)
    returns (r: Response)
    requires table.Valid()
    requires |random| == ShareTokenBytes
    modifies table
    ensures table.Valid()
    ensures Status(r) == 401 <==> session.None?
    ensures Status(r) == 400 <==> session.Some? && !HasTitleAndContent(body)
    ensures Status(r) == 500 <==>
              session.Some? && HasTitleAndContent(body) && ShareIdTaken(old(table.rows), Hex.Encode(random))
    ensures Status(r) in {201, 400, 401, 500}
    ensures Status(r) != 201 ==> table.rows == old(table.rows)
    ensures Status(r) == 201 <==> r.Created?
    ensures table.lastId == old(table.lastId) + (if r.Created? then 1 else 0)
    ensures r.Created? ==>
              && r.created.id == table.lastId
              && r.created == NewChart(r.created.id, session.value.id, body.title.value, body.content.value,
                                       WithDefault(body.isPublic), Hex.Encode(random))
              && r.created.id !in old(table.rows)
              && table.rows == old(table.rows)[r.created.id := Chart(r.created.id, session.value.id,
                   body.title.value, body.content.value, PublicColumn(body.isPublic), r.created.shareId, now, now)]
  {
    if session.None? {
      return Failure(401, NotAuthenticated);
    }
    if !HasTitleAndContent(body) {
      return Failure(400, MissingFields);
    }
    var created := table.Create(session.value.id, body.title.value, body.content.value, body.isPublic, random, now);
    match created
    case Err(_) =>
      r := Failure(500, "Server error during chart creation");
    case Ok(chart) =>
      r := Created("Chart created successfully", chart);
  }

  /** `getUserCharts`: 401 without a session, otherwise exactly the session user's
      charts, newest update first. */
  method GetUserCharts(table: ChartTable, session: Session) returns (r: Response)
    requires table.Valid()
    ensures session.None? <==> r == Failure(401, NotAuthenticated)
    ensures session.Some? ==>
              && r.ChartList?
              && (forall c :: c in r.charts <==> c in table.rows.Values && c.userId == session.value.id)
              && Distinct(r.charts)
              && NewestFirst(r.charts)
  {
    if session.None? {
      return Failure(401, NotAuthenticated);
    }
    var charts := table.FindByUserId(session.value.id);
    r := ChartList(charts);
  }

  /** `getChartById`: the read gate applied to the row with that id. */
  function GetChartById(table: ChartTable, session: Session, id: nat): (r: Response)
    reads table
    requires table.Valid()
    ensures Status(r) == 404 <==> id !in table.rows
    ensures Status(r) == 403 <==>
              id in table.rows && table.rows[id].public == 0
              && (session.None? || table.rows[id].userId != session.value.id)
    ensures Status(r) == 200 <==> id in table.rows && MayView(session, table.rows[id])
    ensures Status(r) == 200 ==> r == ChartFound(table.rows[id])
  {
    ShowChart(session, table.FindById(id))
  }

  /** `getChartByShareId`: the same gate applied to the row carrying the token, so a
      public chart is readable by anyone, signed in or not. */
  function GetChartByShareId(table: ChartTable, session: Session, token: string): (r: Response)
    reads table
    requires table.Valid()
    ensures Status(r) == 404 <==> forall c :: c in table.rows.Values ==> c.shareId != token
    ensures Status(r) in {200, 403, 404}
    ensures Status(r) == 403 <==>
              exists c :: c in table.rows.Values && c.shareId == token && !MayView(session, c)
    ensures Status(r) == 200 <==>
              exists c :: c in table.rows.Values && c.shareId == token && MayView(session, c)
    ensures Status(r) == 200 ==>
              && r.ChartFound?
              && r.chart in table.rows.Values && r.chart.shareId == token && MayView(session, r.chart)
    ensures (exists c :: c in table.rows.Values && c.shareId == token && c.public != 0) ==> r.ChartFound?
  {
    ShowChart(session, table.FindByShareId(token))
  }

  /** `updateChart`: 401, then 400, then 404, then 403 for a requester who does not own
      the chart; only the owner's request reaches the table. */
  method UpdateChart(table: ChartTable, session: Session, id: nat, body: ChartBody, now: int)
    returns (r: Response)
    requires table.Valid()
    modifies table
    ensures table.Valid()
    ensures Status(r) == 401 <==> session.None?
    ensures Status(r) == 400 <==> session.Some? && !HasTitleAndContent(body)
    ensures Status(r) == 404 <==> session.Some? && HasTitleAndContent(body) && id !in old(table.rows)
    ensures Status(r) == 403 <==>
              session.Some? && HasTitleAndContent(body) && id in old(table.rows)
              && old(table.rows)[id].userId != session.value.id
    ensures Status(r) in {200, 400, 401, 403, 404}
    ensures table.lastId == old(table.lastId)
    ensures Status(r) != 200 ==> table.rows == old(table.rows)
    ensures Status(r) == 200 ==>
              && r == Changed("Chart updated successfully", 1)
              && table.rows == old(table.rows)[id := old(table.rows)[id].(title := body.title.value,
                   content := body.content.value, public := PublicColumn(body.isPublic), updatedAt := now)]
  {
    if session.None? {
      return Failure(401, NotAuthenticated);
    }
    if !HasTitleAndContent(body) {
      return Failure(400, MissingFields);
    }
    var chart := table.FindById(id);
    if chart.None? {
      return Failure(404, NotFound);
    }
    if chart.value.userId != session.value.id {
      return Failure(403, "Not authorized to update this chart");
    }
    var changes := table.Update(id, body.title.value, body.content.value, body.isPublic, now);
    r := Changed("Chart updated successfully", changes);
  }

  /** `deleteChart`: 401, then 404, then 403 for a requester who does not own the chart;
      only the owner's request removes the row. */
  method DeleteChart(table: ChartTable, session: Session, id: nat) returns (r: Response)
    requires table.Valid()
    modifies table
    ensures table.Valid()
    ensures Status(r) == 401 <==> session.None?
    ensures Status(r) == 404 <==> session.Some? && id !in old(table.rows)
    ensures Status(r) == 403 <==>
              session.Some? && id in old(table.rows) && old(table.rows)[id].userId != session.value.id
    ensures Status(r) in {200, 401, 403, 404}
    ensures table.lastId == old(table.lastId)
    ensures Status(r) != 200 ==> table.rows == old(table.rows)
    ensures Status(r) == 200 ==>
              r == Changed("Chart deleted successfully", 1) && table.rows == old(table.rows) - {id}
  {
    if session.None? {
      return Failure(401, NotAuthenticated);
    }
    var chart := table.FindById(id);
    if chart.None? {
      return Failure(404, NotFound);
    }
    if chart.value.userId != session.value.id {
      return Failure(403, "Not authorized to delete this chart");
    }
    var changes := table.Delete(id);
    r := Changed("Chart deleted successfully", changes);
  }
}
