/** The dashboard: the statistics the server reports and what is derived
    from them for the cards and the two distribution charts. Every member
    of the reply may be missing; counts are JSON numbers. */
module Dashboard {
  import opened Wrappers
  import opened Text
  import Api

  datatype Gender = Gender(male: Option<int>, female: Option<int>, other: Option<int>)

  datatype DatePoint = DatePoint(date: string, count: int)

  datatype Stats = Stats(total: Option<int>, pending: Option<int>, approved: Option<int>,
                         rejected: Option<int>, draft: Option<int>, enrollingNow: Option<int>,
                         gender: Option<Gender>, byDate: Option<seq<DatePoint>>)

  /** `a ?? b` on optional counts. */
  function Coalesce(a: Option<int>, b: Option<int>): Option<int> {
    if a.Some? then a else b
  }

  /** `stats.enrollingNow ?? stats.pending`: the server's figure when it
      sent one, even zero, else the pending count. */
  function EnrollingNow(s: Stats): (n: Option<int>)
    ensures s.enrollingNow.Some? ==> n == s.enrollingNow
    ensures s.enrollingNow.None? ==> n == s.pending
  {
    Coalesce(s.enrollingNow, s.pending)
  }

  /** `stats.gender ?? { male: 0, female: 0, other: 0 }`. */
  function GenderCounts(s: Stats): (g: Gender)
    ensures s.gender.Some? ==> g == s.gender.value
    ensures s.gender.None? ==> g == Gender(Some(0), Some(0), Some(0))
  {
    if s.gender.Some? then s.gender.value else Gender(Some(0), Some(0), Some(0))
  }

  /** `stats.byDate ?? []`. */
  function ByDate(s: Stats): (points: seq<DatePoint>)
    ensures s.byDate.Some? ==> points == s.byDate.value
    ensures s.byDate.None? ==> points == []
  {
    if s.byDate.Some? then s.byDate.value else []
  }

  /** A stat card shows `stats[key] ?? 0`. */
  function CardValue(v: Option<int>): (shown: int)
    ensures v.None? ==> shown == 0
    ensures v.Some? ==> shown == v.value
  {
    if v.Some? then v.value else 0
  }

  /** The five status cards, in order: total, pending, approved, rejected, draft. */
  function StatusCards(s: Stats): (cards: seq<int>)
    ensures |cards| == 5
    ensures cards[0] == CardValue(s.total) && cards[1] == CardValue(s.pending)
    ensures cards[2] == CardValue(s.approved) && cards[3] == CardValue(s.rejected)
    ensures cards[4] == CardValue(s.draft)
  {
    [CardValue(s.total), CardValue(s.pending), CardValue(s.approved), CardValue(s.rejected), CardValue(s.draft)]
  }

  /** One candidate chart entry: a label, a possibly missing value, a colour. */
  datatype Entry = Entry(name: string, value: Option<int>, fill: string)

  /** A slice of a pie chart. */
  datatype Slice = Slice(name: string, value: int, fill: string)

  /** `d.value > 0`, false for a missing value. */
  predicate Positive(e: Entry) {
    e.value.Some? && e.value.value > 0
  }

  /** `entries.filter((d) => d.value > 0)`: the entries with a positive
      value, in their order. */
  function Slices(entries: seq<Entry>): (r: seq<Slice>)
    ensures |r| <= |entries|
    ensures forall i :: 0 <= i < |r| ==> r[i].value > 0
    ensures r == [] <==> forall i :: 0 <= i < |entries| ==> !Positive(entries[i])
    ensures forall sl :: sl in r <==>
              exists i :: 0 <= i < |entries| && Positive(entries[i])
                          && sl == Slice(entries[i].name, entries[i].value.value, entries[i].fill)
    decreases |entries|
  {
    if entries == [] then []
    else
      assert forall i :: 1 <= i < |entries| ==> entries[i] == entries[1..][i - 1];
      SliceOf(entries[0]) + Slices(entries[1..])
  }

  /** Filtering a concatenation is concatenating the filtered parts. */
  lemma {:induction false} SlicesAppend(a: seq<Entry>, b: seq<Entry>)
    ensures Slices(a + b) == Slices(a) + Slices(b)
    decreases |a|
  {
    if a != [] {
      assert (a + b)[0] == a[0] && (a + b)[1..] == a[1..] + b;
      calc {
        Slices(a + b);
        SliceOf(a[0]) + Slices(a[1..] + b);
        { SlicesAppend(a[1..], b); }
        SliceOf(a[0]) + (Slices(a[1..]) + Slices(b));
        (SliceOf(a[0]) + Slices(a[1..])) + Slices(b);
      }
    } else {
      assert a + b == b;
    }
  }

  /** The slice an entry gives: one when its value is positive, else none. */
  function SliceOf(e: Entry): (r: seq<Slice>)
    ensures |r| <= 1
    ensures r != [] <==> Positive(e)
    ensures r != [] ==> r[0].value > 0
  {
    if Positive(e) then [Slice(e.name, e.value.value, e.fill)] else []
  }

  /** Filtering three entries is filtering each and concatenating. */
  lemma SlicesOfThree(a: Entry, b: Entry, c: Entry)
    ensures Slices([a, b, c]) == SliceOf(a) + SliceOf(b) + SliceOf(c)
  {
    assert [a, b, c][1..] == [b, c];
    assert [b, c][1..] == [c];
    assert [c][1..] == [];
    calc {
      Slices([a, b, c]);
      SliceOf(a) + Slices([b, c]);
      SliceOf(a) + (SliceOf(b) + Slices([c]));
      SliceOf(a) + (SliceOf(b) + (SliceOf(c) + Slices([])));
      { assert SliceOf(c) + [] == SliceOf(c); }
      SliceOf(a) + SliceOf(b) + SliceOf(c);
    }
  }

  /** Filtering four entries is filtering each and concatenating. */
  lemma SlicesOfFour(a: Entry, b: Entry, c: Entry, d: Entry)
    ensures Slices([a, b, c, d]) == SliceOf(a) + SliceOf(b) + SliceOf(c) + SliceOf(d)
  {
    assert [a, b, c, d][1..] == [b, c, d];
    calc {
      Slices([a, b, c, d]);
      SliceOf(a) + Slices([b, c, d]);
      { SlicesOfThree(b, c, d); }
      SliceOf(a) + (SliceOf(b) + SliceOf(c) + SliceOf(d));
      SliceOf(a) + SliceOf(b) + SliceOf(c) + SliceOf(d);
    }
  }

  const PendingColor := "#f59e0b"
  const ApprovedColor := "#10b981"
  const RejectedColor := "#ef4444"
  const DraftColor := "#64748b"
  const FemaleColor := "#ec4899"
  const MaleColor := "#3b82f6"
  const OtherColor := "#64748b"

  function StatusEntries(s: Stats): seq<Entry> {
    [Entry("Pending", s.pending, PendingColor), Entry("Approved", s.approved, ApprovedColor),
     Entry("Rejected", s.rejected, RejectedColor), Entry("Draft", s.draft, DraftColor)]
  }

  function GenderEntries(g: Gender): seq<Entry> {
    [Entry("Female", g.female, FemaleColor), Entry("Male", g.male, MaleColor),
     Entry("Unspecified", g.other, OtherColor)]
  }

  /** `statusChartData`: exactly the statuses with a positive count, in the
      order Pending, Approved, Rejected, Draft. */
  function StatusChartData(s: Stats): (r: seq<Slice>)
    ensures r == SliceOf(Entry("Pending", s.pending, PendingColor)) + SliceOf(Entry("Approved", s.approved, ApprovedColor))
               + SliceOf(Entry("Rejected", s.rejected, RejectedColor)) + SliceOf(Entry("Draft", s.draft, DraftColor))
    ensures r == [] <==> (!Positive(Entry("", s.pending, "")) && !Positive(Entry("", s.approved, ""))
                          && !Positive(Entry("", s.rejected, "")) && !Positive(Entry("", s.draft, "")))
  {
    SlicesOfFour(Entry("Pending", s.pending, PendingColor), Entry("Approved", s.approved, ApprovedColor),
                 Entry("Rejected", s.rejected, RejectedColor), Entry("Draft", s.draft, DraftColor));
    Slices(StatusEntries(s))
  }

  /** `genderChartData`: exactly the genders with a positive count, in the
      order Female, Male, Unspecified; the all-zero default gives no slice. */
  function GenderChartData(s: Stats): (r: seq<Slice>)
    ensures var g := GenderCounts(s);
      r == SliceOf(Entry("Female", g.female, FemaleColor)) + SliceOf(Entry("Male", g.male, MaleColor))
           + SliceOf(Entry("Unspecified", g.other, OtherColor))
    ensures s.gender.None? ==> r == []
  {
    var g := GenderCounts(s);
    SlicesOfThree(Entry("Female", g.female, FemaleColor), Entry("Male", g.male, MaleColor),
                  Entry("Unspecified", g.other, OtherColor));
    Slices(GenderEntries(GenderCounts(s)))
  }

  /** Every slice of the status chart carries the count of its own status. */
  lemma StatusSlicesCarryCounts(s: Stats)
    ensures forall sl :: sl in StatusChartData(s) ==>
      || (sl.name == "Pending" && s.pending == Some(sl.value))
      || (sl.name == "Approved" && s.approved == Some(sl.value))
      || (sl.name == "Rejected" && s.rejected == Some(sl.value))
      || (sl.name == "Draft" && s.draft == Some(sl.value))
    ensures forall sl :: sl in StatusChartData(s) ==> sl.value > 0
  {
  }

  // ---------------------------------------------------------------------
  // The page.

  datatype Screen = ErrorText(message: string) | Spinner | Ready(stats: Stats)

  /** The error comes first; the spinner shows iff there is no error and no
      statistics yet. */
  function View(error: string, stats: Option<Stats>): (v: Screen)
    ensures v.ErrorText? <==> error != ""
    ensures v.ErrorText? ==> v.message == error
    ensures v == Spinner <==> error == "" && stats.None?
    ensures v.Ready? ==> stats == Some(v.stats)
  {
    if error != "" then ErrorText(error)
    else if stats.None? then Spinner
    else Ready(stats.value)
  }

  /** The page state after the one fetch at mount: the statistics on
      success (none if the reply held none), the message on failure. */
  function AfterFetch(outcome: Result<Option<Stats>, string>): (state: (string, Option<Stats>))
    ensures outcome.Success? ==> state == ("", outcome.value)
    ensures outcome.Failure? ==> state == (outcome.error, None)
  {
    match outcome
    case Success(data) => ("", data)
    case Failure(m) => (m, None)
  }

  /** A failed statistics request always ends on its error text; a
      successful one ends on the dashboard, or on the spinner when the reply
      held no data. */
  lemma FetchOutcomeShown(reply: Api.Envelope<Stats>)
    ensures var state := AfterFetch(Api.Unwrap(Api.StatsEndpoint, reply));
      && (!reply.ok ==> View(state.0, state.1).ErrorText?)
      && (reply.ok && reply.data.Some? ==> View(state.0, state.1) == Ready(reply.data.value))
      && (reply.ok && reply.data.None? ==> View(state.0, state.1) == Spinner)
  {
  }
}
