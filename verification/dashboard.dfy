/** The resource list of the dashboard (web/src/components/Dashboard.tsx):
    the search and group filter, the colour band of the remaining days,
    and the expiry label. */
module Dashboard {
  import opened Optional
  import opened JsText
  import opened Types
  import opened ResourceModel

  // ---------------------------------------------------------------------
  // The filter
  // ---------------------------------------------------------------------

  /** The search test; `lower` stands for `String.prototype.toLowerCase`. */
  predicate MatchesSearch(query: string, r: ResourceView, lower: string -> string) {
    query == "" || Includes(lower(r.name), lower(query)) || Includes(lower(r.group), lower(query))
  }

  /** The group test: exact and case-sensitive; no group selects all. */
  predicate MatchesGroup(group: string, r: ResourceView) {
    group == "" || r.group == group
  }

  predicate Shown(query: string, group: string, r: ResourceView, lower: string -> string) {
    MatchesSearch(query, r, lower) && MatchesGroup(group, r)
  }

  /** `a` is `b` with some elements left out and the rest in order. */
  predicate SubsequenceOf<T(==)>(a: seq<T>, b: seq<T>)
    decreases |b|
  {
    |a| == 0 ||
    (|b| > 0 && if a[0] == b[0] then SubsequenceOf(a[1..], b[1..]) else SubsequenceOf(a, b[1..]))
  }

  /** `filteredResources`. */
  function FilterResources(rs: seq<ResourceView>, query: string, group: string, lower: string -> string): (out: seq<ResourceView>)
    ensures SubsequenceOf(out, rs)
    ensures forall r :: multiset(out)[r] == if Shown(query, group, r, lower) then multiset(rs)[r] else 0
    ensures forall r :: r in out <==> r in rs && Shown(query, group, r, lower)
  {
    if |rs| == 0 then []
    else
      var rest := FilterResources(rs[1..], query, group, lower);
      assert rs == [rs[0]] + rs[1..];
      assert forall r :: r in multiset(rs) <==> r in rs;
      if Shown(query, group, rs[0], lower) then [rs[0]] + rest else rest
  }

  /** An empty query and no selected group show every resource. */
  lemma {:induction false} EmptyFilterShowsAll(rs: seq<ResourceView>, lower: string -> string)
    ensures FilterResources(rs, "", "", lower) == rs
  {
    if |rs| > 0 {
      EmptyFilterShowsAll(rs[1..], lower);
      assert rs == [rs[0]] + rs[1..];
    }
  }

  /** Filtering the filtered list again changes nothing. */
  lemma {:induction false} FilterIdempotent(rs: seq<ResourceView>, query: string, group: string, lower: string -> string)
    ensures FilterResources(FilterResources(rs, query, group, lower), query, group, lower)
            == FilterResources(rs, query, group, lower)
  {
    if |rs| > 0 {
      FilterIdempotent(rs[1..], query, group, lower);
      var rest := FilterResources(rs[1..], query, group, lower);
      if Shown(query, group, rs[0], lower) {
        assert ([rs[0]] + rest)[1..] == rest;
      }
    }
  }

  /** A search hit is the lower-cased query appearing somewhere in the
      lower-cased name or group. */
  lemma SearchHitIsInfix(query: string, r: ResourceView, lower: string -> string)
    requires query != ""
    ensures MatchesSearch(query, r, lower) <==>
              (exists i :: 0 <= i && OccursAt(lower(r.name), lower(query), i)) ||
              (exists i :: 0 <= i && OccursAt(lower(r.group), lower(query), i))
  {
    IncludesMeansInfix(lower(r.name), lower(query));
    IncludesMeansInfix(lower(r.group), lower(query));
  }

  // ---------------------------------------------------------------------
  // Remaining days
  // ---------------------------------------------------------------------

  const ExpiredStyle: string := "bg-red-100 text-red-700"
  const WeekStyle: string := "bg-orange-100 text-orange-700"
  const MonthStyle: string := "bg-yellow-100 text-yellow-700"
  const LaterStyle: string := "bg-green-100 text-green-700"

  /** `getRemainingDaysStyle`: the four bands split the integers. */
  function RemainingDaysStyle(days: int): (style: string)
    ensures style == ExpiredStyle <==> days <= 0
    ensures style == WeekStyle <==> 1 <= days <= 7
    ensures style == MonthStyle <==> 8 <= days <= 30
    ensures style == LaterStyle <==> days > 30
  {
    if days <= 0 then ExpiredStyle
    else if days <= 7 then WeekStyle
    else if days <= 30 then MonthStyle
    else LaterStyle
  }

  const ExpiredLabel: string := "已过期"

  /** The badge text: the expired label, or the number of days and `天`. */
  function ExpiryLabel(days: int): (text: string)
    ensures text == ExpiredLabel <==> days <= 0
    ensures days > 0 ==> exists n :: text == n + " 天" && |n| >= 1 && AllDigits(n) && n[0] != '0' &&
                                      DigitsValue(n) == days && ParseInt(n) == Some(days)
  {
    if days <= 0 then ExpiredLabel
    else
      var n := IntToDecimal(days);
      NatToDecimalValue(days);
      ParseIntOfDecimal(days);
      var text := n + " 天";
      assert text[|text| - 1] == '天';
      text
  }

  /** The label of a listed resource reads expired exactly when its expiry
      is not after the moment the server answered. */
  lemma ExpiredLabelIffPast(r: Resource, now: Instant)
    ensures ExpiryLabel(ToResponse(r, now).remainingDays) == ExpiredLabel <==> r.expireAt <= now
    ensures RemainingDaysStyle(ToResponse(r, now).remainingDays) == ExpiredStyle <==> r.expireAt <= now
  {
    ExpiredIffNoDaysLeft(r.expireAt, now);
  }
}
