/** The "Import CSV to discussions" action of an Azure Boards extension: when
    the dialog's Import button is pressed, every parsed CSV row is rendered as
    an HTML table and posted as a discussion comment to each work item its
    `WorkItemId` column names.

    The host services (location, project, access token) are reduced to the
    three strings of an `Endpoint`; the CSV parser is reduced to its output,
    a sequence of rows; `fetch` and `alert` are recorded on a `Page`. */
module ImportCsvDiscussions {
  import opened Wrappers
  import opened Sequences
  import opened JsStrings
  import opened Json

  // ================================================================ data model

  /** One column of a parsed CSV row: header name and cell text. */
  type Column = (string, string)

  /** A parsed CSV row, its columns in `Object.keys` order. */
  type Record = seq<Column>

  const TitleKey := "Title"
  const WorkItemIdKey := "WorkItemId"
  const EmptyCsvMessage := "Error : CSV File is Empty."

  /** What the host supplies for building requests: the work-item-tracking
      resource area URL, the current project's name and the bearer token. */
  datatype Endpoint = Endpoint(hostBaseUrl: string, projectName: string, accessToken: string)

  /** One `fetch` call: its method, URL, the two headers and the body. */
  datatype Request = Request(verb: string, url: string, authorization: string, contentType: string, body: string)

  /** The two columns that are not rendered as table cells. */
  predicate IsReserved(key: string) {
    key == TitleKey || key == WorkItemIdKey
  }

  predicate IsRendered(c: Column) {
    !IsReserved(c.0)
  }

  /** The column names are distinct, as the keys of a JavaScript object are. */
  predicate DistinctKeys(row: Record) {
    forall i, j :: 0 <= i < j < |row| ==> row[i].0 != row[j].0
  }

  /** `record[key]`: the value of the column named `key`, if there is one. */
  function Property(row: Record, key: string): (r: Option<string>)
    ensures r.None? <==> forall i :: 0 <= i < |row| ==> row[i].0 != key
  {
    if row == [] then None
    else if row[0].0 == key then Some(row[0].1)
    else
      assert forall i :: 1 <= i < |row| ==> row[1..][i - 1] == row[i];
      Property(row[1..], key)
  }

  /** In a row with distinct keys, looking a column's key up gives its value. */
  lemma {:induction false} PropertyAt(row: Record, i: nat)
    requires DistinctKeys(row) && i < |row|
    ensures Property(row, row[i].0) == Some(row[i].1)
  {
    if i > 0 {
      assert row[1..][i - 1] == row[i];
      assert DistinctKeys(row[1..]) by {
        forall a, b | 0 <= a < b < |row| - 1 ensures row[1..][a].0 != row[1..][b].0 {
          assert row[1..][a] == row[a + 1] && row[1..][b] == row[b + 1];
        }
      }
      PropertyAt(row[1..], i - 1);
    }
  }

  // ================================================================ the comment

  /** The columns that become table cells, in row order. */
  function NonReserved(row: Record): seq<Column> {
    Filter(row, IsRendered)
  }

  function Th(key: string): string {
    "<th>" + key + "</th>"
  }

  function Td(value: string): string {
    "<td>" + value + "</td>"
  }

  function HeaderCell(c: Column): string {
    Th(c.0)
  }

  function BodyCell(c: Column): string {
    Td(c.1)
  }

  /** The `header` array the loop over `Object.keys(record)` builds. */
  function HeaderCells(row: Record): seq<string> {
    Map(NonReserved(row), HeaderCell)
  }

  /** The `cols` array the same loop builds. */
  function BodyCells(row: Record): seq<string> {
    Map(NonReserved(row), BodyCell)
  }

  /** `${record.Title}`: the title value, or "undefined" when the row has no
      Title column. */
  function TitleText(row: Record): string {
    match Property(row, TitleKey)
    case None => "undefined"
    case Some(t) => t
  }

  function Spaces(n: nat): string {
    seq(n, _ => ' ')
  }

  /** The template text up to the colspan value. */
  const TitleRowStart: string :=
    "<table style=\"width:100%\">\n" +
    Spaces(48) + "<thead>\n" +
    Spaces(52) + "<tr>\n" +
    Spaces(56) + "<th  colspan=\""

  /** The template text after the title cell. */
  function TableRest(header: seq<string>, cols: seq<string>): string {
    Spaces(52) + "</tr>\n" +
    Spaces(52) + "<tr>\n" +
    Spaces(56) + Join(header, "\n") + "\n" +
    Spaces(52) + "</tr>\n" +
    Spaces(48) + "</thead>\n" +
    Spaces(48) + "<tbody>\n" +
    Spaces(52) + "<tr>\n" +
    Spaces(56) + Join(cols, "\n") + "\n" +
    Spaces(52) + "</tr>\n" +
    Spaces(48) + "</tbody>\n" +
    Spaces(44) + "</table>"
  }

  /** The `discussion_comment.text` template literal, line breaks and
      indentation included. */
  function CommentText(title: string, header: seq<string>, cols: seq<string>): string {
    TitleRowStart + NatToDecimal(|header|) + "\">" + title + "</th>\n" + TableRest(header, cols)
  }

  /** The comment a row renders to. */
  function RenderComment(row: Record): string {
    CommentText(TitleText(row), HeaderCells(row), BodyCells(row))
  }

  /** Reads the colspan number back out of a rendered comment. */
  function ColspanOf(text: string): Option<nat> {
    if TitleRowStart <= text then ParseDecimal(LeadingDigits(text[|TitleRowStart|..])) else None
  }

  // ================================================================ the requests

  /** The comments endpoint of one work item. */
  function CommentsUrl(ep: Endpoint, id: string): string {
    ep.hostBaseUrl + ep.projectName + "/_apis/wit/workItems/" + id + "/comments?api-version=6.0-preview.3"
  }

  /** The POST that adds `comment` to work item `id`. */
  function CommentRequest(ep: Endpoint, comment: string, id: string): Request {
    Request("POST", CommentsUrl(ep, id), "Bearer " + ep.accessToken, "application/json", TextObject(comment))
  }

  /** The guard `id && id.trim() !== ''` on a token. */
  predicate IsPostedId(id: string) {
    id != "" && Trim(id) != ""
  }

  /** The emptiness test in the guard adds nothing: a token is posted exactly
      when it is not blank after trimming. */
  lemma PostedIffNotBlank(id: string)
    ensures IsPostedId(id) <==> Trim(id) != ""
  {
    if id == "" {
      assert TrimStart(id) == "";
    }
  }

  /** The tokens of a `WorkItemId` cell that receive a request, in order. */
  function PostedIds(ids: seq<string>): seq<string> {
    Filter(ids, IsPostedId)
  }

  /** The requests issued for the tokens `ids`: one per posted token, in
      token order, each to the trimmed token and all with the same comment. */
  function IdRequests(ep: Endpoint, comment: string, ids: seq<string>): (r: seq<Request>)
    ensures |r| == |PostedIds(ids)|
    ensures forall i :: 0 <= i < |r| ==> r[i] == CommentRequest(ep, comment, Trim(PostedIds(ids)[i]))
  {
    if ids == [] then []
    else
      var init, last := ids[..|ids| - 1], ids[|ids| - 1];
      var prev := IdRequests(ep, comment, init);
      var step := if IsPostedId(last) then [CommentRequest(ep, comment, Trim(last))] else [];
      FilterSnoc(init, last, IsPostedId);
      assert init + [last] == ids;
      prev + step
  }

  /** Handling one more token appends at most one request. */
  lemma IdRequestsSnoc(ep: Endpoint, comment: string, ids: seq<string>, id: string)
    ensures IdRequests(ep, comment, ids + [id]) ==
            IdRequests(ep, comment, ids) + (if IsPostedId(id) then [CommentRequest(ep, comment, Trim(id))] else [])
  {
    assert (ids + [id])[..|ids|] == ids;
  }

  /** The requests one row issues. A row without a WorkItemId column makes
      `record.WorkItemId.split` throw inside that row's own callback, after
      which that row issues nothing while the other rows go on. */
  function RecordRequests(row: Record, ep: Endpoint): seq<Request> {
    match Property(row, WorkItemIdKey)
    case None => []
    case Some(w) => IdRequests(ep, RenderComment(row), Split(w, ';'))
  }

  /** The requests all rows issue, row after row. */
  function ImportRequests(records: seq<Record>, ep: Endpoint): seq<Request> {
    if records == [] then []
    else ImportRequests(records[..|records| - 1], ep) + RecordRequests(records[|records| - 1], ep)
  }

  /** Handling one more row appends that row's requests. */
  lemma ImportRequestsSnoc(records: seq<Record>, row: Record, ep: Endpoint)
    ensures ImportRequests(records + [row], ep) == ImportRequests(records, ep) + RecordRequests(row, ep)
  {
    assert (records + [row])[..|records|] == records;
  }

  // ================================================================ properties

  lemma ThInjective(a: string, b: string)
    requires Th(a) == Th(b)
    ensures a == b
  {
    assert a == Th(a)[4..4 + |a|];
    assert b == Th(b)[4..4 + |b|];
  }

  /** Entry `i` of `header` and entry `i` of `cols` come from the same
      non-reserved column: `<th>` around its key and `<td>` around the value
      `record[key]`, verbatim. */
  lemma CellsMatchColumns(row: Record, i: nat)
    requires DistinctKeys(row)
    requires i < |HeaderCells(row)|
    ensures i < |BodyCells(row)| && i < |NonReserved(row)|
    ensures var c := NonReserved(row)[i];
            !IsReserved(c.0) && c in row &&
            HeaderCells(row)[i] == "<th>" + c.0 + "</th>" &&
            Property(row, c.0) == Some(c.1) &&
            BodyCells(row)[i] == "<td>" + c.1 + "</td>"
  {
    FilterSelects(row, IsRendered);
    var k := KeptIndices(row, IsRendered)[i];
    assert NonReserved(row)[i] == row[k];
    PropertyAt(row, k);
  }

  /** `header` and `cols` have one entry per non-reserved column. */
  lemma CellCounts(row: Record)
    ensures |HeaderCells(row)| == |BodyCells(row)| == |KeptIndices(row, IsRendered)|
  {
    FilterSelects(row, IsRendered);
  }

  /** No `<th>` cell is produced for Title or WorkItemId. */
  lemma ReservedColumnsNotRendered(row: Record)
    ensures Th(TitleKey) !in HeaderCells(row) && Th(WorkItemIdKey) !in HeaderCells(row)
  {
    var nr := NonReserved(row);
    forall i | 0 <= i < |nr|
      ensures HeaderCells(row)[i] != Th(TitleKey) && HeaderCells(row)[i] != Th(WorkItemIdKey)
    {
      assert nr[i] in nr;
      if HeaderCells(row)[i] == Th(TitleKey) { ThInjective(nr[i].0, TitleKey); }
      if HeaderCells(row)[i] == Th(WorkItemIdKey) { ThInjective(nr[i].0, WorkItemIdKey); }
    }
  }

  /** Every non-reserved column contributes its `<th>` and its `<td>`, at the
      same position of `header` and `cols`. */
  lemma EveryColumnRendered(row: Record, j: nat)
    requires j < |row| && !IsReserved(row[j].0)
    ensures exists i :: 0 <= i < |HeaderCells(row)| && i < |BodyCells(row)| &&
              HeaderCells(row)[i] == Th(row[j].0) && BodyCells(row)[i] == Td(row[j].1)
  {
    FilterSelects(row, IsRendered);
    var ix := KeptIndices(row, IsRendered);
    assert j in ix;
    var i :| 0 <= i < |ix| && ix[i] == j;
    assert HeaderCells(row)[i] == Th(row[j].0);
  }

  /** The colspan of the title cell reads back as the number of header cells. */
  lemma ColspanOfComment(title: string, header: seq<string>, cols: seq<string>)
    ensures ColspanOf(CommentText(title, header, cols)) == Some(|header|)
  {
    var text := CommentText(title, header, cols);
    var d := NatToDecimal(|header|);
    var rest := TableRest(header, cols);
    var x := "\">" + title + "</th>\n" + rest;
    AppendAssoc(TitleRowStart, d, "\">");
    AppendAssoc(TitleRowStart, d + "\">", title);
    AppendAssoc(TitleRowStart, d + "\">" + title, "</th>\n");
    AppendAssoc(TitleRowStart, d + "\">" + title + "</th>\n", rest);
    assert text == TitleRowStart + (d + x);
    assert text[..|TitleRowStart|] == TitleRowStart;
    assert text[|TitleRowStart|..] == d + x;
    LeadingDigitsOf(d, x);
    DecimalRoundTrip(|header|);
  }

  /** Right after the colspan attribute the title cell holds the title and
      its closing tag. */
  lemma TitleCellOfComment(title: string, header: seq<string>, cols: seq<string>)
    ensures var text := CommentText(title, header, cols);
            var at := |TitleRowStart| + |NatToDecimal(|header|)| + 2;
            at + |title| + 5 <= |text| && text[at..at + |title| + 5] == title + "</th>"
  {
    var text := CommentText(title, header, cols);
    var prefix := TitleRowStart + NatToDecimal(|header|) + "\">";
    var x := title + "</th>\n" + TableRest(header, cols);
    AppendAssoc(prefix, title, "</th>\n");
    AppendAssoc(prefix, title + "</th>\n", TableRest(header, cols));
    assert text == prefix + x;
    assert text[|prefix|..|prefix| + |title| + 5] == x[..|title| + 5];
    assert x[..|title| + 5] == title + "</th>";
  }

  /** A row's comment: the colspan is the number of non-reserved columns and
      the title cell holds `${record.Title}`: the Title column's value, or
      "undefined" when the row has no Title column. */
  lemma TitleRow(row: Record)
    ensures ColspanOf(RenderComment(row)) == Some(|KeptIndices(row, IsRendered)|)
    ensures var text := RenderComment(row);
            var at := |TitleRowStart| + |NatToDecimal(|HeaderCells(row)|)| + 2;
            at + |TitleText(row)| + 5 <= |text| &&
            text[at..at + |TitleText(row)| + 5] == TitleText(row) + "</th>"
    ensures DistinctKeys(row) ==>
              forall i :: 0 <= i < |row| && row[i].0 == TitleKey ==> TitleText(row) == row[i].1
    ensures (forall i :: 0 <= i < |row| ==> row[i].0 != TitleKey) ==> TitleText(row) == "undefined"
  {
    CellCounts(row);
    ColspanOfComment(TitleText(row), HeaderCells(row), BodyCells(row));
    TitleCellOfComment(TitleText(row), HeaderCells(row), BodyCells(row));
    if DistinctKeys(row) {
      forall i | 0 <= i < |row| && row[i].0 == TitleKey
        ensures TitleText(row) == row[i].1
      {
        PropertyAt(row, i);
      }
    }
  }

  /** A request URL names exactly one work item. */
  lemma CommentsUrlInjective(ep: Endpoint, a: string, b: string)
    requires CommentsUrl(ep, a) == CommentsUrl(ep, b)
    ensures a == b
  {
    var p := |ep.hostBaseUrl + ep.projectName + "/_apis/wit/workItems/"|;
    assert a == CommentsUrl(ep, a)[p..p + |a|];
    assert b == CommentsUrl(ep, b)[p..p + |b|];
  }

  /** Every request of a row is a POST with the bearer token and a JSON body
      whose "text" member is that row's comment: the same body for every id. */
  lemma RecordRequestsShareBody(row: Record, ep: Endpoint)
    ensures forall r :: r in RecordRequests(row, ep) ==>
              r.verb == "POST" && r.authorization == "Bearer " + ep.accessToken &&
              r.contentType == "application/json" &&
              r.body == TextObject(RenderComment(row)) &&
              TextMember(r.body) == Some(RenderComment(row))
  {
    TextObjectRoundTrip(RenderComment(row));
  }

  /** A row posts once per `;`-separated token of its WorkItemId that is not
      blank after trimming, in token order, to the trimmed token; a row without
      a WorkItemId posts nothing. */
  lemma RecordRequestTargets(row: Record, ep: Endpoint)
    ensures Property(row, WorkItemIdKey).None? ==> RecordRequests(row, ep) == []
    ensures Property(row, WorkItemIdKey).Some? ==>
              var tokens := Split(Property(row, WorkItemIdKey).value, ';');
              var posted := PostedIds(tokens);
              var rs := RecordRequests(row, ep);
              |rs| == |posted| == |KeptIndices(tokens, IsPostedId)| &&
              (forall k: nat :: k < |tokens| ==> (k in KeptIndices(tokens, IsPostedId) <==> Trim(tokens[k]) != "")) &&
              (forall i :: 0 <= i < |rs| ==>
                 KeptIndices(tokens, IsPostedId)[i] < |tokens| && posted[i] == tokens[KeptIndices(tokens, IsPostedId)[i]] &&
                 rs[i].url == CommentsUrl(ep, Trim(posted[i])) &&
                 Trim(posted[i]) != "" && ';' !in Trim(posted[i]))
  {
    if Property(row, WorkItemIdKey).Some? {
      var tokens := Split(Property(row, WorkItemIdKey).value, ';');
      var posted := PostedIds(tokens);
      FilterSelects(tokens, IsPostedId);
      forall k: nat | k < |tokens| ensures IsPostedId(tokens[k]) <==> Trim(tokens[k]) != "" {
        PostedIffNotBlank(tokens[k]);
      }
      forall i | 0 <= i < |posted| ensures Trim(posted[i]) != "" && ';' !in Trim(posted[i]) {
        assert posted[i] in posted;
        assert posted[i] in tokens;
        TrimWithin(posted[i]);
      }
    }
  }

  /** Rows are handled in record order: the requests of a concatenation of
      row lists are those of the first list followed by those of the second. */
  lemma {:induction false} ImportRequestsAppend(a: seq<Record>, b: seq<Record>, ep: Endpoint)
    ensures ImportRequests(a + b, ep) == ImportRequests(a, ep) + ImportRequests(b, ep)
  {
    if b == [] {
      assert a + b == a;
    } else {
      var init := b[..|b| - 1];
      ImportRequestsAppend(a, init, ep);
      assert (a + b)[..|a + b| - 1] == a + init;
      AppendAssoc(ImportRequests(a, ep), ImportRequests(init, ep), RecordRequests(b[|b| - 1], ep));
    }
  }

  // ================================================================ scenarios

  lemma SplitTwoIds()
    ensures Split("12;34", ';') == ["12", "34"]
  {
    SplitCons('4', "", ';'); assert ['4'] + "" == "4";
    assert [""][1..] == [];
    assert Split("4", ';') == ["4"];
    SplitCons('3', "4", ';'); assert ['3'] + "4" == "34";
    assert ["4"][1..] == [];
    assert Split("34", ';') == ["34"];
    SplitCons(';', "34", ';'); assert [';'] + "34" == ";34";
    assert Split(";34", ';') == ["", "34"];
    SplitCons('2', ";34", ';'); assert ['2'] + ";34" == "2;34";
    assert ['2'] + "" == "2" && ["", "34"][1..] == ["34"];
    assert Split("2;34", ';') == ["2", "34"];
    SplitCons('1', "2;34", ';'); assert ['1'] + "2;34" == "12;34";
    assert ['1'] + "2" == "12" && ["2", "34"][1..] == ["34"];
    assert Split("12;34", ';') == ["12", "34"];
  }

  lemma SplitNonNumeric()
    ensures Split(";abc", ';') == ["", "abc"]
  {
    SplitCons('c', "", ';'); assert ['c'] + "" == "c";
    assert [""][1..] == [];
    assert Split("c", ';') == ["c"];
    SplitCons('b', "c", ';'); assert ['b'] + "c" == "bc";
    assert ["c"][1..] == [];
    assert Split("bc", ';') == ["bc"];
    SplitCons('a', "bc", ';'); assert ['a'] + "bc" == "abc";
    assert ["bc"][1..] == [];
    assert Split("abc", ';') == ["abc"];
    SplitCons(';', "abc", ';'); assert [';'] + "abc" == ";abc";
    assert Split(";abc", ';') == ["", "abc"];
  }

  lemma SplitPadded()
    ensures Split(" 7 ; ", ';') == [" 7 ", " "]
  {
    SplitCons(' ', "", ';'); assert [' '] + "" == " ";
    assert [""][1..] == [];
    assert Split(" ", ';') == [" "];
    SplitCons(';', " ", ';'); assert [';'] + " " == "; ";
    assert Split("; ", ';') == ["", " "];
    SplitCons(' ', "; ", ';'); assert [' '] + "; " == " ; ";
    assert [' '] + "" == " " && ["", " "][1..] == [" "];
    assert Split(" ; ", ';') == [" ", " "];
    SplitCons('7', " ; ", ';'); assert ['7'] + " ; " == "7 ; ";
    assert ['7'] + " " == "7 " && [" ", " "][1..] == [" "];
    assert Split("7 ; ", ';') == ["7 ", " "];
    SplitCons(' ', "7 ; ", ';'); assert [' '] + "7 ; " == " 7 ; ";
    assert [' '] + "7 " == " 7 " && ["7 ", " "][1..] == [" "];
    assert Split(" 7 ; ", ';') == [" 7 ", " "];
  }

  /** The tokens "12" and "34" are both posted, in that order. */
  lemma TwoIdRequests(ep: Endpoint, comment: string)
    ensures IdRequests(ep, comment, ["12", "34"]) ==
            [CommentRequest(ep, comment, "12"), CommentRequest(ep, comment, "34")]
  {
    var ids := ["12", "34"];
    assert TrimStart("12") == "12" && TrimEnd("12") == "12";
    assert TrimStart("34") == "34" && TrimEnd("34") == "34";
    assert ids[..1] == ["12"] && ids[..1][..0] == [];
    assert IdRequests(ep, comment, ids[..1]) == [CommentRequest(ep, comment, "12")];
  }

  /** Title "Fixed bug", WorkItemId "12;34", Notes "done": one Notes column in
      the table, titled "Fixed bug". */
  lemma TwoIdsCells()
    ensures var row := [(TitleKey, "Fixed bug"), (WorkItemIdKey, "12;34"), ("Notes", "done")];
            HeaderCells(row) == ["<th>Notes</th>"] && BodyCells(row) == ["<td>done</td>"] &&
            TitleText(row) == "Fixed bug"
  {
    var row := [(TitleKey, "Fixed bug"), (WorkItemIdKey, "12;34"), ("Notes", "done")];
    assert row[..2][..1][..0] == [];
    assert NonReserved(row[..2][..1]) == [];
    assert NonReserved(row[..2]) == [];
    assert NonReserved(row) == [("Notes", "done")];
    assert Th("Notes") == "<th>Notes</th>" && Td("done") == "<td>done</td>";
  }

  /** The same row posts its comment to items 12 and 34, in that order. */
  lemma TwoIdsScenario(ep: Endpoint)
    ensures var row := [(TitleKey, "Fixed bug"), (WorkItemIdKey, "12;34"), ("Notes", "done")];
            RecordRequests(row, ep) == [CommentRequest(ep, RenderComment(row), "12"),
                                        CommentRequest(ep, RenderComment(row), "34")]
  {
    var row := [(TitleKey, "Fixed bug"), (WorkItemIdKey, "12;34"), ("Notes", "done")];
    assert Property(row, WorkItemIdKey) == Some("12;34");
    SplitTwoIds();
    TwoIdRequests(ep, RenderComment(row));
  }

  /** WorkItemId ";abc": the empty token is skipped, and the token "abc" is
      posted to as it stands, since ids are only trimmed. */
  lemma NonNumericIdScenario(ep: Endpoint)
    ensures var row := [(TitleKey, "No id"), (WorkItemIdKey, ";abc")];
            RecordRequests(row, ep) == [CommentRequest(ep, RenderComment(row), "abc")]
  {
    var row := [(TitleKey, "No id"), (WorkItemIdKey, ";abc")];
    assert Property(row, WorkItemIdKey) == Some(";abc");
    var ids := ["", "abc"];
    SplitNonNumeric();
    assert TrimStart("abc") == "abc" && TrimEnd("abc") == "abc";
    assert ids[..1] == [""] && ids[..1][..0] == [];
  }

  /** WorkItemId " 7 ; ": the padded token is trimmed and the blank one skipped. */
  lemma BlankTokenScenario(ep: Endpoint)
    ensures var row := [(WorkItemIdKey, " 7 ; ")];
            RecordRequests(row, ep) == [CommentRequest(ep, RenderComment(row), "7")]
  {
    var row := [(WorkItemIdKey, " 7 ; ")];
    assert Property(row, WorkItemIdKey) == Some(" 7 ; ");
    var ids := [" 7 ", " "];
    SplitPadded();
    assert TrimStart(" 7 ") == "7 " by { assert " 7 "[1..] == "7 "; }
    assert TrimEnd("7 ") == "7" by { assert "7 "[..1] == "7"; }
    assert TrimStart(" ") == "" by { assert " "[1..] == ""; }
    assert ids[..1] == [" 7 "] && ids[..1][..0] == [];
  }

  // ================================================================ the page

  /** What the handler does to the outside world: the requests it has passed
      to `fetch`, in issue order, and the alerts it has shown. */
  class Page {
    var sent: seq<Request>
    var alerts: seq<string>

    constructor ()
      ensures sent == [] && alerts == []
    {
      sent, alerts := [], [];
    }

    /** `fetch`: the request is issued; its response is not awaited here. */
    method Fetch(r: Request)
      modifies this
      ensures sent == old(sent) + [r] && alerts == old(alerts)
    {
      sent := sent + [r];
    }

    method Alert(message: string)
      modifies this
      ensures alerts == old(alerts) + [message] && sent == old(sent)
    {
      alerts := alerts + [message];
    }
  }

  // ================================================================ the handler

  /** The `Object.keys(record).forEach` loop that pushes one `<th>` and one
      `<td>` per non-reserved column. */
  method BuildCells(row: Record) returns (header: seq<string>, cols: seq<string>)
    ensures header == HeaderCells(row) && cols == BodyCells(row)
  {
    header, cols := [], [];
    var i := 0;
    while i < |row|
      invariant 0 <= i <= |row|
      invariant header == HeaderCells(row[..i]) && cols == BodyCells(row[..i])
    {
      var (key, value) := row[i];
      FilterSnoc(row[..i], row[i], IsRendered);
      assert row[..i + 1] == row[..i] + [row[i]];
      if key != TitleKey && key != WorkItemIdKey {
        header := header + [Th(key)];
        cols := cols + [Td(value)];
      }
      i := i + 1;
    }
    assert row[..|row|] == row;
  }

  /** The `ids.forEach` loop: post `comment` to every token of `ids` that is
      not blank, in token order. */
  method PostToIds(page: Page, ep: Endpoint, comment: string, ids: seq<string>)
    modifies page
    ensures page.sent == old(page.sent) + IdRequests(ep, comment, ids)
    ensures page.alerts == old(page.alerts)
  {
    var i := 0;
    while i < |ids|
      invariant 0 <= i <= |ids|
      invariant page.sent == old(page.sent) + IdRequests(ep, comment, ids[..i])
      invariant page.alerts == old(page.alerts)
    {
      var id := ids[i];
      assert ids[..i + 1] == ids[..i] + [id];
      IdRequestsSnoc(ep, comment, ids[..i], id);
      if id != "" && Trim(id) != "" {
        page.Fetch(CommentRequest(ep, comment, Trim(id)));
      }
      i := i + 1;
    }
    assert ids[..|ids|] == ids;
  }

  /** The `records.forEach` callback for one row: render the comment once,
      split the WorkItemId cell on ';' and post the comment to every token
      that is not blank. */
  method HandleRecord(page: Page, row: Record, ep: Endpoint)
    modifies page
    ensures page.sent == old(page.sent) + RecordRequests(row, ep)
    ensures page.alerts == old(page.alerts)
  {
    var header, cols := BuildCells(row);
    var comment := CommentText(TitleText(row), header, cols);
    var workItemId := Property(row, WorkItemIdKey);
    if workItemId.None? {
      // `undefined.split` throws: this row's callback stops here
      return;
    }
    var ids := Split(workItemId.value, ';');
    PostToIds(page, ep, comment, ids);
  }

  /** The dialog's `okCallback`. `records` is what the CSV parser makes of
      `result`; an empty result only raises the alert. */
  method OkCallback(page: Page, result: string, records: seq<Record>, ep: Endpoint)
    modifies page
    ensures result == "" ==> page.alerts == old(page.alerts) + [EmptyCsvMessage] && page.sent == old(page.sent)
    ensures result != "" ==> page.alerts == old(page.alerts) && page.sent == old(page.sent) + ImportRequests(records, ep)
  {
    if result != "" {
      var i := 0;
      while i < |records|
        invariant 0 <= i <= |records|
        invariant page.sent == old(page.sent) + ImportRequests(records[..i], ep)
        invariant page.alerts == old(page.alerts)
      {
        assert records[..i + 1] == records[..i] + [records[i]];
        ImportRequestsSnoc(records[..i], records[i], ep);
        AppendAssoc(old(page.sent), ImportRequests(records[..i], ep), RecordRequests(records[i], ep));
        HandleRecord(page, records[i], ep);
        i := i + 1;
      }
      assert records[..|records|] == records;
    } else {
      page.Alert(EmptyCsvMessage);
    }
  }
}
