/** The archive page: school-year tabs built from a default list and the
    years the server reports, the archived rows of the chosen year, and the
    texts around them. */
module Archive {
  import opened Wrappers
  import opened Text
  import Ordering
  import Listing

  datatype Row = Row(id: string, userId: string, status: string, studentName: string, email: string,
                     contactNo: Option<string>, archivedAt: Option<string>, schoolYear: Option<string>)

  /** The years offered even before any record is archived. */
  const DefaultYears := ["2025-2026", "2026-2027", "2024-2025"]

  /** The year tab chosen at mount: every year. */
  const AllYears := "all"

  /** `[...new Set([...DEFAULT_SCHOOL_YEARS, ...years])].sort().reverse()`:
      every default and every reported year, once each, newest first. */
  function MergeSchoolYears(years: seq<string>): (tabs: seq<string>)
    ensures forall y :: y in tabs <==> y in DefaultYears || y in years
    ensures Ordering.StrictlyDescending(tabs)
    ensures Ordering.NoDuplicates(tabs)
  {
    var unique := Ordering.Distinct(DefaultYears + years);
    var sorted := Ordering.SortAscending(unique);
    var tabs := Ordering.Reverse(sorted);
    Ordering.SortedDistinctReversed(unique);
    Ordering.SameElements(unique);
    Ordering.SameElements(sorted);
    Ordering.DescendingNoDuplicates(tabs);
    tabs
  }

  /** The tabs depend only on which years were reported, not on their
      order or repetitions. */
  lemma MergeIgnoresOrder(a: seq<string>, b: seq<string>)
    requires forall y :: y in a <==> y in b
    ensures MergeSchoolYears(a) == MergeSchoolYears(b)
  {
    Ordering.StrictlyDescendingUnique(MergeSchoolYears(a), MergeSchoolYears(b));
  }

  /** With nothing reported, the tabs are the three defaults, newest first. */
  lemma DefaultTabs()
    ensures MergeSchoolYears([]) == ["2026-2027", "2025-2026", "2024-2025"]
  {
    var expected := ["2026-2027", "2025-2026", "2024-2025"];
    assert Ordering.Below("2025-2026", "2026-2027") by {
      assert "2025-2026"[3..] == "5-2026" && "2026-2027"[3..] == "6-2027";
    }
    assert Ordering.Below("2024-2025", "2025-2026") by {
      assert "2024-2025"[3..] == "4-2025" && "2025-2026"[3..] == "5-2026";
    }
    Ordering.BelowTransitive("2024-2025", "2025-2026", "2026-2027");
    assert Ordering.StrictlyDescending(expected);
    Ordering.StrictlyDescendingUnique(MergeSchoolYears([]), expected);
  }

  /** The list filter a tab stands for: none for "all", the year itself
      otherwise. */
  function YearFilter(year: string): (filter: Option<string>)
    ensures filter.None? <==> year == AllYears
    ensures filter.Some? ==> filter.value == year
  {
    if year == AllYears then None else Some(year)
  }

  /** "No archived enrollments." for every year, else names the year. */
  function EmptyMessage(year: string): (text: string)
    ensures year == AllYears ==> text == "No archived enrollments."
    ensures year != AllYears ==> text == "No archived enrollments for SY " + year + "."
  {
    if year == AllYears then "No archived enrollments." else "No archived enrollments for SY " + year + "."
  }

  /** The two empty-state messages never coincide. */
  lemma EmptyMessagesDiffer(year: string)
    requires year != AllYears
    ensures EmptyMessage(year) != EmptyMessage(AllYears)
  {
    assert EmptyMessage(year)[23] != EmptyMessage(AllYears)[23];
  }

  /** The footer: the count of archived enrollments, with " for SY <year>"
      appended iff a specific, non-empty year is chosen. */
  function Footer(count: nat, year: string): (text: string)
    ensures Listing.EndsWith(text, " for SY " + year) <==> year != "" && year != AllYears
    ensures year != "" && year != AllYears ==> text == Listing.CountText("archived enrollment", count) + " for SY " + year
    ensures year == "" || year == AllYears ==> text == Listing.CountText("archived enrollment", count)
    ensures year == "" || year == AllYears ==> (Listing.EndsWith(text, "archived enrollments") <==> count != 1)
  {
    var head := Listing.CountText("archived enrollment", count);
    if year != "" && year != AllYears then
      var suffix := " for SY " + year;
      var text := head + suffix;
      assert text[|head|..] == suffix;
      text
    else
      LastCharOfCount(count);
      Listing.DifferentLastChar(head, " for SY " + year);
      head
  }

  /** The count text ends in "s" or in the "t" of "enrollment". */
  lemma LastCharOfCount(count: nat)
    ensures var head := Listing.CountText("archived enrollment", count);
      head != [] && (head[|head| - 1] == 's' || head[|head| - 1] == 't')
  {
    var head := Listing.CountText("archived enrollment", count);
    if count != 1 {
      assert head[|head| - 1] == ("archived enrollment" + "s")[19];
    } else {
      assert head[|head| - 1] == "archived enrollment"[18];
    }
  }

  datatype Body = Spinner | Empty(message: string) | Table(rows: seq<Row>)

  datatype Screen = ErrorText(message: string) | Page(tabs: seq<string>, selected: string, body: Body, footer: Option<string>)

  /** The page: any error replaces it whole; otherwise the "All" tab and one
      tab per year, and below them the spinner, the empty state or the
      table with its footer. */
  function View(schoolYears: seq<string>, selected: string, list: seq<Row>, loading: bool, error: string): (v: Screen)
    ensures v.ErrorText? <==> error != ""
    ensures v.ErrorText? ==> v.message == error
    ensures v.Page? ==> v.tabs == [AllYears] + schoolYears && v.selected == selected
    ensures v.Page? ==> (v.body == Spinner <==> loading)
    ensures v.Page? && !loading ==> (v.body == Empty(EmptyMessage(selected)) <==> list == [])
    ensures v.Page? && v.body.Table? ==> v.body.rows == list
    ensures v.Page? ==> (v.footer.Some? <==> !loading && list != [])
    ensures v.Page? && v.footer.Some? ==> v.footer.value == Footer(|list|, selected)
  {
    if error != "" then ErrorText(error)
    else
      var body := if loading then Spinner else if list == [] then Empty(EmptyMessage(selected)) else Table(list);
      var footer := if !loading && list != [] then Some(Footer(|list|, selected)) else None;
      Page([AllYears] + schoolYears, selected, body, footer)
  }

  /** The cells of one archived row: the archive date, or '—'. */
  datatype Cells = Cells(student: string, email: string, contact: string, status: string,
                         badge: string, archived: string, link: string)

  function RowCells(row: Row, locale: string -> string): (c: Cells)
    ensures c.contact == (if Truthy(row.contactNo) then row.contactNo.value else Dash)
    ensures c.badge == Listing.BadgeClass(row.status)
    ensures c.student == row.studentName && c.email == row.email && c.status == row.status
    ensures !Truthy(row.archivedAt) ==> c.archived == Dash
    ensures Truthy(row.archivedAt) ==> c.archived == locale(row.archivedAt.value)
    ensures c.link == Listing.DetailLink(row.id)
  {
    Cells(row.studentName, row.email, OrDash(row.contactNo), row.status,
          Listing.BadgeClass(row.status), Listing.DateText(row.archivedAt, locale),
          Listing.DetailLink(row.id))
  }

  /** What a state change asks of the server. */
  datatype Effect = NoFetch | FetchArchived(schoolYear: Option<string>)

  class ArchiveView {
    var schoolYears: seq<string>
    var selectedYear: string
    var list: seq<Row>
    var loading: bool
    var error: string

    constructor ()
      ensures schoolYears == [] && selectedYear == AllYears && list == [] && loading && error == ""
    {
      schoolYears := [];
      selectedYear := AllYears;
      list := [];
      loading := true;
      error := "";
    }

    /** The list effect: nothing for an empty year; otherwise loading starts
        and the archived list of the year is asked for. */
    method FetchList() returns (effect: Effect)
      modifies this
      ensures selectedYear == "" ==> effect == NoFetch && loading == old(loading)
      ensures selectedYear != "" ==> effect == FetchArchived(YearFilter(selectedYear)) && loading
      ensures schoolYears == old(schoolYears) && selectedYear == old(selectedYear)
      ensures list == old(list) && error == old(error)
    {
      if selectedYear == "" {
        effect := NoFetch;
      } else {
        loading := true;
        effect := FetchArchived(YearFilter(selectedYear));
      }
    }

    /** The reported school years arrive: the tabs become the merged list;
        a failure becomes the error. */
    method YearsSettled(outcome: Result<seq<string>, string>)
      modifies this
      ensures outcome.Success? ==> schoolYears == MergeSchoolYears(outcome.value) && error == old(error)
      ensures outcome.Failure? ==> schoolYears == old(schoolYears) && error == outcome.error
      ensures selectedYear == old(selectedYear) && list == old(list) && loading == old(loading)
    {
      match outcome {
        case Success(years) => schoolYears := MergeSchoolYears(years);
        case Failure(m) => error := m;
      }
    }

    /** A tab click: choosing the tab already selected does not re-run the
        effect; any other tab runs it for the new year. */
    method SelectYear(year: string) returns (effect: Effect)
      modifies this
      ensures selectedYear == year
      ensures schoolYears == old(schoolYears) && list == old(list) && error == old(error)
      ensures year == old(selectedYear) ==> effect == NoFetch && loading == old(loading)
      ensures year != old(selectedYear) && year == "" ==> effect == NoFetch && loading == old(loading)
      ensures year != old(selectedYear) && year != "" ==> effect == FetchArchived(YearFilter(year)) && loading
    {
      if year == selectedYear {
        effect := NoFetch;
      } else {
        selectedYear := year;
        effect := FetchList();
      }
    }

    /** The archived list settles: its rows replace the list, or the message
        becomes the error; loading ends either way. */
    method ListSettled(outcome: Result<seq<Row>, string>)
      modifies this
      ensures !loading
      ensures outcome.Success? ==> list == outcome.value && error == old(error)
      ensures outcome.Failure? ==> list == old(list) && error == outcome.error
      ensures schoolYears == old(schoolYears) && selectedYear == old(selectedYear)
    {
      match outcome {
        case Success(rows) => list := rows;
        case Failure(m) => error := m;
      }
      loading := false;
    }
  }
}
