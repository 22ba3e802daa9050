/** The table pieces the enrollment list and the archive share: the status
    badge look, the date and contact cells, the row link, and the
    "Showing N …" footer. */
module Listing {
  import opened Wrappers
  import opened Text
  import App

  /** `statusBadgeClass`: the look of the four known statuses. */
  const BadgeClasses: map<string, string> := map[
    "pending" := "bg-amber-500/20 text-amber-400",
    "approved" := "bg-emerald-500/20 text-emerald-400",
    "rejected" := "bg-red-500/20 text-red-400",
    "draft" := "bg-slate-500/20 text-slate-400"
  ]

  const FallbackBadge := "bg-white/10 text-white/70"

  /** `statusBadgeClass[status] ?? fallback`. */
  function BadgeClass(status: string): (cls: string)
    ensures status in BadgeClasses ==> cls == BadgeClasses[status]
    ensures status !in BadgeClasses ==> cls == FallbackBadge
  {
    if status in BadgeClasses then BadgeClasses[status] else FallbackBadge
  }

  /** The fallback look marks exactly the statuses outside the four known
      ones, and the known ones all look different. */
  lemma FallbackExactlyForUnknown(status: string)
    ensures BadgeClass(status) == FallbackBadge <==> status !in {"pending", "approved", "rejected", "draft"}
    ensures forall s, t :: s in BadgeClasses && t in BadgeClasses && s != t ==> BadgeClasses[s] != BadgeClasses[t]
  {
    assert BadgeClasses.Keys == {"pending", "approved", "rejected", "draft"};
    assert FallbackBadge[3] != BadgeClasses["pending"][3];
    assert FallbackBadge[3] != BadgeClasses["approved"][3];
    assert FallbackBadge[3] != BadgeClasses["rejected"][3];
    assert FallbackBadge[3] != BadgeClasses["draft"][3];
    assert BadgeClasses["pending"][3] != BadgeClasses["approved"][3];
    assert BadgeClasses["pending"][3] != BadgeClasses["rejected"][3];
    assert BadgeClasses["pending"][3] != BadgeClasses["draft"][3];
    assert BadgeClasses["approved"][3] != BadgeClasses["rejected"][3];
    assert BadgeClasses["approved"][3] != BadgeClasses["draft"][3];
    assert BadgeClasses["rejected"][3] != BadgeClasses["draft"][3];
  }

  /** `formatDate`: '—' for a missing or empty timestamp, else the locale
      rendering, which is a parameter here. */
  function DateText(s: Option<string>, locale: string -> string): (text: string)
    ensures !Truthy(s) ==> text == Dash
    ensures Truthy(s) ==> text == locale(s.value)
  {
    if !Truthy(s) then Dash else locale(s.value)
  }

  /** The "View" link of a row. */
  function DetailLink(id: string): string {
    "/enrollments/" + id
  }

  /** A row's link opens the detail page of that row's id. */
  lemma DetailLinkOpensRow(id: string)
    requires id != "" && '/' !in id
    ensures App.Match(App.Segments(DetailLink(id))) == Some(App.EnrollmentDetailPage(id))
  {
    App.DetailPathOpensDetail(id, false, None);
  }

  predicate EndsWith(s: string, suffix: string) {
    |suffix| <= |s| && s[|s| - |suffix|..] == suffix
  }

  /** Strings with different last characters do not end alike. */
  lemma DifferentLastChar(s: string, suffix: string)
    requires s != [] && suffix != [] && s[|s| - 1] != suffix[|suffix| - 1]
    ensures !EndsWith(s, suffix)
  {
    if |suffix| <= |s| {
      assert s[|s| - |suffix|..][|suffix| - 1] == s[|s| - 1];
    }
  }

  /** "Showing N <noun>", with "s" appended iff N is not one. */
  function CountText(noun: string, count: nat): (text: string)
    requires noun != [] && noun[|noun| - 1] != 's'
    ensures "Showing " <= text
    ensures EndsWith(text, noun + "s") <==> count != 1
    ensures count == 1 ==> EndsWith(text, noun)
  {
    var text := "Showing " + Decimal(count) + " " + noun + PluralSuffix(count);
    assert count != 1 ==> text[|text| - |noun + "s"|..] == noun + "s";
    assert count == 1 ==> text[|text| - |noun|..] == noun && text[|text| - 1] == noun[|noun| - 1];
    text
  }

  /** The number in the footer reads back as the count. */
  lemma CountTextShowsCount(noun: string, count: nat)
    requires noun != [] && noun[|noun| - 1] != 's'
    ensures var digits := Decimal(count);
      && CountText(noun, count)[8..8 + |digits|] == digits
      && ParseDecimal(digits) == count
  {
    var text := "Showing " + Decimal(count) + " " + noun + PluralSuffix(count);
    assert text[8..8 + |Decimal(count)|] == Decimal(count);
    DecimalRoundTrip(count);
  }
}
