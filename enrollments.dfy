/** The enrollment list page: a status filter, the fetch it drives, and
    what the page shows for each state of the fetch. */
module Enrollments {
  import opened Wrappers
  import opened Text
  import Api
  import UriComponent
  import Listing

  datatype Row = Row(id: string, userId: string, status: string, studentName: string, email: string,
                     contactNo: Option<string>, submittedAt: Option<string>)

  /** What a state change asks of the server: nothing, or the list with the
      given status filter (None: unfiltered). */
  datatype Effect = NoFetch | FetchList(status: Option<string>)

  /** `statusFilter || undefined`: the empty filter ("All statuses") asks
      for the unfiltered list, any other filter is passed on unchanged. */
  function StatusQuery(filter: string): (q: Option<string>)
    ensures q.None? <==> filter == ""
    ensures q.Some? ==> q.value == filter
  {
    if filter == "" then None else Some(filter)
  }

  /** The filter reaches the server as the `status` query parameter, and
      only a non-empty filter adds a query. */
  lemma FilterReachesServer(filter: string)
    ensures filter == "" ==> Api.EnrollmentsUrl(StatusQuery(filter)) == Api.ApiUrl + Api.EnrollmentsPath
    ensures filter != "" ==>
      && Api.EnrollmentsUrl(StatusQuery(filter)) == Api.ApiUrl + Api.EnrollmentsPath + "?status=" + UriComponent.Encode(filter)
      && UriComponent.Decode(UriComponent.Encode(filter)) == Some(filter)
  {
    Api.EnrollmentsQuery(StatusQuery(filter));
  }

  const EmptyTitle := "No enrollments found"
  const FilteredHint := "Try changing the status filter or check back later."
  const UnfilteredHint := "Submitted applications will appear here."

  /** The hint under the empty table depends only on whether a filter is set. */
  function EmptyHint(filter: string): (hint: string)
    ensures hint == FilteredHint <==> filter != ""
    ensures hint == UnfilteredHint <==> filter == ""
  {
    if filter != "" then FilteredHint else UnfilteredHint
  }

  function Footer(count: nat): (text: string)
    ensures text == Listing.CountText("enrollment", count)
    ensures Listing.EndsWith(text, "enrollments") <==> count != 1
    ensures count == 1 ==> Listing.EndsWith(text, "enrollment")
  {
    Listing.CountText("enrollment", count)
  }

  /** The cells of one table row. */
  datatype Cells = Cells(student: string, email: string, contact: string, status: string,
                         badge: string, submitted: string, link: string)

  function RowCells(row: Row, locale: string -> string): (c: Cells)
    ensures c.contact == (if Truthy(row.contactNo) then row.contactNo.value else Dash)
    ensures c.badge == Listing.BadgeClass(row.status)
    ensures c.student == row.studentName && c.email == row.email && c.status == row.status
    ensures !Truthy(row.submittedAt) ==> c.submitted == Dash
    ensures Truthy(row.submittedAt) ==> c.submitted == locale(row.submittedAt.value)
    ensures c.link == Listing.DetailLink(row.id)
  {
    Cells(row.studentName, row.email, OrDash(row.contactNo), row.status,
          Listing.BadgeClass(row.status), Listing.DateText(row.submittedAt, locale),
          Listing.DetailLink(row.id))
  }

  datatype Body = Spinner | Empty(title: string, hint: string) | Table(rows: seq<Row>)

  datatype Screen = ErrorText(message: string) | Page(filter: string, body: Body, footer: Option<string>)

  /** The page: any error replaces it whole; otherwise the spinner while
      loading, the empty state for an empty list, else the table with its
      footer. */
  function View(loading: bool, list: seq<Row>, filter: string, error: string): (v: Screen)
    ensures v.ErrorText? <==> error != ""
    ensures v.ErrorText? ==> v.message == error
    ensures v.Page? ==> v.filter == filter
    ensures v.Page? ==> (v.body == Spinner <==> loading)
    ensures v.Page? && !loading ==> (v.body.Empty? <==> list == [])
    ensures v.Page? && v.body.Empty? ==> v.body == Empty(EmptyTitle, EmptyHint(filter))
    ensures v.Page? && v.body.Table? ==> v.body.rows == list
    ensures v.Page? ==> (v.footer.Some? <==> !loading && list != [])
    ensures v.Page? && v.footer.Some? ==> v.footer.value == Footer(|list|)
  {
    if error != "" then ErrorText(error)
    else if loading then Page(filter, Spinner, None)
    else if list == [] then Page(filter, Empty(EmptyTitle, EmptyHint(filter)), None)
    else Page(filter, Table(list), Some(Footer(|list|)))
  }

  class EnrollmentsView {
    var list: seq<Row>
    var statusFilter: string
    var loading: bool
    var error: string

    constructor ()
      ensures list == [] && statusFilter == "" && loading && error == ""
    {
      list := [];
      statusFilter := "";
      loading := true;
      error := "";
    }

    /** The fetch effect: loading starts and the list is asked for with the
        current filter. It runs on mount and on every change of the filter. */
    method Fetch() returns (effect: Effect)
      modifies this
      ensures loading
      ensures effect == FetchList(StatusQuery(statusFilter))
      ensures list == old(list) && statusFilter == old(statusFilter) && error == old(error)
    {
      loading := true;
      effect := FetchList(StatusQuery(statusFilter));
    }

    /** The select's onChange. Choosing the filter already in force does not
        re-run the effect; any other filter starts a new fetch. */
    method ChangeFilter(filter: string) returns (effect: Effect)
      modifies this
      ensures statusFilter == filter
      ensures list == old(list) && error == old(error)
      ensures filter == old(statusFilter) ==> effect == NoFetch && loading == old(loading)
      ensures filter != old(statusFilter) ==> effect == FetchList(StatusQuery(filter)) && loading
    {
      if filter == statusFilter {
        effect := NoFetch;
      } else {
        statusFilter := filter;
        effect := Fetch();
      }
    }

    /** The fetch settles: the rows replace the list, or the message becomes
        the error; loading ends either way. An error, once set, stays. */
    method Settle(outcome: Result<seq<Row>, string>)
      modifies this
      ensures !loading
      ensures statusFilter == old(statusFilter)
      ensures outcome.Success? ==> list == outcome.value && error == old(error)
      ensures outcome.Failure? ==> list == old(list) && error == outcome.error
      ensures old(error) != "" && outcome.Success? ==> View(loading, list, statusFilter, error) == ErrorText(old(error))
    {
      match outcome {
        case Success(rows) => list := rows;
        case Failure(m) => error := m;
      }
      loading := false;
    }
  }

  /** A failed fetch (whose message the API client never leaves empty)
      turns the page into its error text. */
  lemma FailedFetchShowsError(reply: Api.Envelope<seq<Row>>, loading: bool, list: seq<Row>, filter: string)
    requires !reply.ok
    ensures var message := Api.Unwrap(Api.EnrollmentsEndpoint, reply).error;
      View(loading, list, filter, message) == ErrorText(message)
  {
  }
}
