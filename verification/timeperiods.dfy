/** The server's time-of-day buckets and the filter the incident list route
    applies with them. */
module TimePeriods {
  import opened Wrappers
  import opened Seqs
  import opened Incidents

  datatype Period = Morning | Afternoon | Evening | Night

  const AllPeriods: seq<Period> := [Morning, Afternoon, Evening, Night]

  /** The bucket names used as query values and as counter keys. */
  function PeriodName(p: Period): string {
    match p
    case Morning => "morning"
    case Afternoon => "afternoon"
    case Evening => "evening"
    case Night => "night"
  }

  lemma PeriodNameInjective(p: Period, q: Period)
    ensures PeriodName(p) == PeriodName(q) <==> p == q
    ensures '_' !in PeriodName(p)
  {
  }

  /** `getTimePeriod`: the if-chain on the local hour. */
  function HourPeriod(hour: int): (p: Period)
    ensures p == Morning <==> 6 <= hour < 12
    ensures p == Afternoon <==> 12 <= hour < 17
    ensures p == Evening <==> 17 <= hour < 21
    ensures p == Night <==> hour < 6 || 21 <= hour
  {
    if hour >= 6 && hour < 12 then Morning
    else if hour >= 12 && hour < 17 then Afternoon
    else if hour >= 17 && hour < 21 then Evening
    else Night
  }

  function GetTimePeriod(t: Timestamp): Period {
    HourPeriod(t.hour)
  }

  /** `filterByTimePeriod(incidents, period)`; `None` is an absent query value. */
  function FilterByTimePeriod(incidents: seq<Incident>, period: Option<string>): (r: seq<Incident>)
    ensures period.None? || period.value == "" || period.value == "all" ==> r == incidents
    ensures IsSubsequence(r, incidents)
    ensures period.Some? && period.value != "" && period.value != "all" ==>
      forall k :: 0 <= k < |r| ==> PeriodName(GetTimePeriod(r[k].timestamp)) == period.value
  {
    if period.None? || period.value == "" || period.value == "all" then
      SubsequenceOfSelf(incidents);
      incidents
    else
      var keep := (x: Incident) => PeriodName(GetTimePeriod(x.timestamp)) == period.value;
      FilterIsSubsequence(incidents, keep);
      Filter(incidents, keep)
  }

  lemma {:induction false} SubsequenceOfSelf<T>(s: seq<T>)
    ensures IsSubsequence(s, s)
  {
    if s != [] {
      SubsequenceOfSelf(s[1..]);
    }
  }

  /** Filtering by a bucket name keeps exactly the incidents of that bucket,
      each as often as it occurs. */
  lemma FilterKeepsBucket(incidents: seq<Incident>, p: Period)
    ensures forall x: Incident :: multiset(FilterByTimePeriod(incidents, Some(PeriodName(p))))[x] ==
                                  (if GetTimePeriod(x.timestamp) == p then multiset(incidents)[x] else 0)
  {
    var keep := (x: Incident) => PeriodName(GetTimePeriod(x.timestamp)) == PeriodName(p);
    FilterMultiset(incidents, keep);
    forall x: Incident ensures keep(x) == (GetTimePeriod(x.timestamp) == p) {
      PeriodNameInjective(GetTimePeriod(x.timestamp), p);
    }
  }

  /** A period value that names no bucket (and is neither empty nor "all")
      yields the empty list. */
  lemma UnknownPeriodIsEmpty(incidents: seq<Incident>, period: string)
    requires period != "" && period != "all"
    requires forall p :: PeriodName(p) != period
    ensures FilterByTimePeriod(incidents, Some(period)) == []
  {
    var keep := (x: Incident) => PeriodName(GetTimePeriod(x.timestamp)) == period;
    FilterKeepsNone(incidents, keep);
  }

  /** `GET /api/incidents`: the filter runs only when the query value is
      truthy, and the filter itself leaves the list alone for a falsy value,
      so the route's answer is the filter's. */
  function ListIncidents(incidents: seq<Incident>, timePeriod: Option<string>): (r: seq<Incident>)
    ensures r == FilterByTimePeriod(incidents, timePeriod)
  {
    if timePeriod.Some? && timePeriod.value != "" then FilterByTimePeriod(incidents, timePeriod) else incidents
  }
}
