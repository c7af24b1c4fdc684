/** The statistics panel of the web client: two counting folds over the
    incidents it was given and the ordering of the bucket entries it shows. */
module ClientStatistics {
  import opened Seqs
  import opened Tally
  import opened Categorizer
  import opened Incidents
  import opened TimePeriods
  import opened ServerStats

  /** The component's own if-chain on `new Date(timestamp).getHours()`.
      The browser reads the hour in its own time zone, written `clientHour(t)`
      here; the server's hour is `t.hour`, read in the server's zone. */
  function ClientPeriodKey(clientHour: Timestamp -> int): Incident -> string {
    (x: Incident) =>
      var hour := clientHour(x.timestamp);
      if hour >= 6 && hour < 12 then "morning"
      else if hour >= 12 && hour < 17 then "afternoon"
      else if hour >= 17 && hour < 21 then "evening"
      else "night"
  }

  /** The incidents whose browser-local hour falls in bucket `p`. */
  function InClientPeriod(clientHour: Timestamp -> int, p: Period): Incident -> bool {
    (x: Incident) => HourPeriod(clientHour(x.timestamp)) == p
  }

  /** The client's if-chain is the server's rule applied to the client's
      hour, so the two name the same bucket for the same hour. */
  lemma ClientAgreesWithServer(clientHour: Timestamp -> int, x: Incident)
    ensures ClientPeriodKey(clientHour)(x) == PeriodName(HourPeriod(clientHour(x.timestamp)))
    ensures clientHour(x.timestamp) == x.timestamp.hour ==> ClientPeriodKey(clientHour)(x) == PeriodKey(x)
  {
  }

  /** The client's bucket key names exactly one bucket. */
  lemma ClientKeyCount(incidents: seq<Incident>, clientHour: Timestamp -> int, p: Period)
    ensures CountOf(incidents, ClientPeriodKey(clientHour), PeriodName(p)) ==
            |Filter(incidents, InClientPeriod(clientHour, p))|
  {
    forall x: Incident ensures KeyIs(ClientPeriodKey(clientHour), PeriodName(p))(x) == InClientPeriod(clientHour, p)(x) {
      assert KeyIs(ClientPeriodKey(clientHour), PeriodName(p))(x) == (ClientPeriodKey(clientHour)(x) == PeriodName(p));
      ClientAgreesWithServer(clientHour, x);
      PeriodNameInjective(HourPeriod(clientHour(x.timestamp)), p);
    }
    FilterCongruent(incidents, KeyIs(ClientPeriodKey(clientHour), PeriodName(p)), InClientPeriod(clientHour, p));
  }

  /** `categoryCounts`: one key per category that occurs, in order of first
      occurrence, holding the number of incidents of that category. */
  function CategoryCounts(incidents: seq<Incident>): Counts<string> {
    TallyFrom([], incidents, CategoryKey)
  }

  lemma CategoryCountsCorrect(incidents: seq<Incident>)
    ensures DistinctKeys(CategoryCounts(incidents))
    ensures Total(CategoryCounts(incidents)) == |incidents|
    ensures forall c :: Get(CategoryCounts(incidents), CategoryName(c)) == |Filter(incidents, OfCategory(c))|
    ensures forall c :: CategoryName(c) in Keys(CategoryCounts(incidents)) <==> |Filter(incidents, OfCategory(c))| > 0
    ensures forall k :: k in Keys(CategoryCounts(incidents)) ==> exists c :: k == CategoryName(c)
    ensures incidents == [] <==> CategoryCounts(incidents) == []
  {
    var r := CategoryCounts(incidents);
    TallyFromEmpty(incidents, CategoryKey);
    forall c ensures Get(r, CategoryName(c)) == |Filter(incidents, OfCategory(c))| {
      CategoryCount(incidents, c);
    }
    forall c ensures CategoryName(c) in Keys(r) <==> |Filter(incidents, OfCategory(c))| > 0 {
      CategoryKeyCount(incidents, c);
    }
    forall k | k in Keys(r) ensures exists c :: k == CategoryName(c) {
      KeyOccurs(incidents, CategoryKey, k);
    }
  }

  /** A key that is counted is the key of some element. */
  lemma {:induction false} KeyOccurs<T, K>(s: seq<T>, key: T -> K, k: K)
    requires CountOf(s, key, k) > 0
    ensures exists i :: 0 <= i < |s| && key(s[i]) == k
  {
    assert s != [];
    if key(s[0]) != k {
      assert Filter(s, KeyIs(key, k)) == Filter(s[1..], KeyIs(key, k));
      KeyOccurs(s[1..], key, k);
      var i :| 0 <= i < |s| - 1 && key(s[1..][i]) == k;
      assert key(s[i + 1]) == k;
    } else {
      assert key(s[0]) == k;
    }
  }

  /** `timePeriodCounts`: unlike the server's counter, a bucket has a key
      only when some incident falls in it. */
  function TimePeriodCounts(incidents: seq<Incident>, clientHour: Timestamp -> int): Counts<string> {
    TallyFrom([], incidents, ClientPeriodKey(clientHour))
  }

  lemma TimePeriodCountsCorrect(incidents: seq<Incident>, clientHour: Timestamp -> int)
    ensures DistinctKeys(TimePeriodCounts(incidents, clientHour))
    ensures Total(TimePeriodCounts(incidents, clientHour)) == |incidents|
    ensures forall p :: Get(TimePeriodCounts(incidents, clientHour), PeriodName(p)) ==
                        |Filter(incidents, InClientPeriod(clientHour, p))|
    ensures forall p :: PeriodName(p) in Keys(TimePeriodCounts(incidents, clientHour)) <==>
                        |Filter(incidents, InClientPeriod(clientHour, p))| > 0
    ensures forall k :: k in Keys(TimePeriodCounts(incidents, clientHour)) ==> k in PeriodNames
    ensures incidents == [] <==> TimePeriodCounts(incidents, clientHour) == []
  {
    var key := ClientPeriodKey(clientHour);
    var r := TimePeriodCounts(incidents, clientHour);
    TallyFromEmpty(incidents, key);
    forall p ensures Get(r, PeriodName(p)) == |Filter(incidents, InClientPeriod(clientHour, p))| {
      ClientKeyCount(incidents, clientHour, p);
    }
    forall p ensures PeriodName(p) in Keys(r) <==> |Filter(incidents, InClientPeriod(clientHour, p))| > 0 {
      ClientKeyCount(incidents, clientHour, p);
    }
    forall k | k in Keys(r) ensures k in PeriodNames {
      KeyOccurs(incidents, key, k);
      var i :| 0 <= i < |incidents| && key(incidents[i]) == k;
      ClientAgreesWithServer(clientHour, incidents[i]);
      PeriodNameListed(HourPeriod(clientHour(incidents[i].timestamp)));
    }
  }

  /** When the browser reads the same hour as the server, the client shows
      the server's number for every bucket, and omits only buckets the server
      reports as 0. */
  lemma ClientPeriodsMatchServer(incidents: seq<Incident>, clientHour: Timestamp -> int, p: Period)
    requires forall t :: clientHour(t) == t.hour
    ensures Get(TimePeriodCounts(incidents, clientHour), PeriodName(p)) ==
            Get(TallyFrom(PeriodsAtZero, incidents, PeriodKey), PeriodName(p))
    ensures PeriodName(p) !in Keys(TimePeriodCounts(incidents, clientHour)) ==>
            Get(TallyFrom(PeriodsAtZero, incidents, PeriodKey), PeriodName(p)) == 0
  {
    TimePeriodCountsCorrect(incidents, clientHour);
    PeriodCount(incidents, p);
    forall x: Incident ensures InClientPeriod(clientHour, p)(x) == InPeriod(p)(x) {
      assert clientHour(x.timestamp) == x.timestamp.hour;
    }
    FilterCongruent(incidents, InClientPeriod(clientHour, p), InPeriod(p));
  }

  /** A browser `d` hours ahead of the server. */
  function ShiftHour(d: int): Timestamp -> int {
    (t: Timestamp) => t.hour + d
  }

  /** Without a shared time zone the counts can differ: an 8 o'clock incident
      is morning on the server and afternoon in a browser five hours ahead. */
  lemma TimeZonesCanDisagree(x: Incident)
    requires x.timestamp.hour == 8
    ensures Get(TimePeriodCounts([x], ShiftHour(5)), "morning") == 0
    ensures Get(TallyFrom(PeriodsAtZero, [x], PeriodKey), "morning") == 1
  {
    var key := ClientPeriodKey(ShiftHour(5));
    assert [x][..0] == [];
    assert key(x) == "afternoon";
    assert TallyFrom([], [x], key) == Bump(TallyFrom([], [x][..0], key), key([x][0]));
    assert TimePeriodCounts([x], ShiftHour(5)) == [("afternoon", 1)];
    assert PeriodKey(x) == "morning";
  }

  /** Counts in non-increasing order. */
  predicate NonIncreasing<K>(entries: Counts<K>) {
    forall i, j :: 0 <= i < j < |entries| ==> entries[i].1 >= entries[j].1
  }

  function HasCount<K>(n: nat): ((K, nat)) -> bool {
    (e: (K, nat)) => e.1 == n
  }

  /** Places `e` before the first entry whose count is not larger. */
  function InsertByCount<K>(e: (K, nat), sorted: Counts<K>): Counts<K> {
    if sorted == [] || sorted[0].1 <= e.1 then [e] + sorted
    else [sorted[0]] + InsertByCount(e, sorted[1..])
  }

  lemma {:induction false} InsertByCountMultiset<K>(e: (K, nat), sorted: Counts<K>)
    ensures multiset(InsertByCount(e, sorted)) == multiset(sorted) + multiset{e}
  {
    if sorted != [] && sorted[0].1 > e.1 {
      InsertByCountMultiset(e, sorted[1..]);
      assert sorted == [sorted[0]] + sorted[1..];
    }
  }

  lemma {:induction false} InsertByCountBounded<K>(e: (K, nat), sorted: Counts<K>, m: nat)
    requires e.1 <= m
    requires forall k :: 0 <= k < |sorted| ==> sorted[k].1 <= m
    ensures forall k :: 0 <= k < |InsertByCount(e, sorted)| ==> InsertByCount(e, sorted)[k].1 <= m
  {
    if sorted != [] && sorted[0].1 > e.1 {
      InsertByCountBounded(e, sorted[1..], m);
    }
  }

  lemma {:induction false} InsertByCountSorted<K>(e: (K, nat), sorted: Counts<K>)
    requires NonIncreasing(sorted)
    ensures NonIncreasing(InsertByCount(e, sorted))
  {
    if sorted != [] && sorted[0].1 > e.1 {
      InsertByCountSorted(e, sorted[1..]);
      InsertByCountBounded(e, sorted[1..], sorted[0].1);
    }
  }

  /** `entries.sort((a, b) => b[1] - a[1])`: an insertion sort, which like
      the built-in sort is stable, so entries with equal counts keep their
      order. */
  function SortByCount<K>(entries: Counts<K>): (r: Counts<K>)
    ensures NonIncreasing(r)
    ensures multiset(r) == multiset(entries)
  {
    if entries == [] then []
    else
      var rest := SortByCount(entries[1..]);
      InsertByCountSorted(entries[0], rest);
      InsertByCountMultiset(entries[0], rest);
      assert entries == [entries[0]] + entries[1..];
      InsertByCount(entries[0], rest)
  }

  lemma {:induction false} InsertByCountStable<K>(e: (K, nat), sorted: Counts<K>, n: nat)
    ensures Filter(InsertByCount(e, sorted), HasCount(n)) ==
            (if e.1 == n then [e] else []) + Filter(sorted, HasCount(n))
  {
    if sorted != [] && sorted[0].1 > e.1 {
      InsertByCountStable(e, sorted[1..], n);
      var rest := InsertByCount(e, sorted[1..]);
      assert ([sorted[0]] + rest)[1..] == rest;
    }
  }

  /** Stability: the entries with any one count appear in the sorted list in
      their original order. */
  lemma {:induction false} SortByCountStable<K>(entries: Counts<K>, n: nat)
    ensures Filter(SortByCount(entries), HasCount(n)) == Filter(entries, HasCount(n))
  {
    if entries != [] {
      SortByCountStable(entries[1..], n);
      InsertByCountStable(entries[0], SortByCount(entries[1..]), n);
    }
  }

  /** The bucket entries as displayed: the buckets that occur, each with its
      count, largest first. */
  function PeriodEntriesByCount(incidents: seq<Incident>, clientHour: Timestamp -> int): Counts<string> {
    SortByCount(TimePeriodCounts(incidents, clientHour))
  }

  lemma PeriodEntriesByCountCorrect(incidents: seq<Incident>, clientHour: Timestamp -> int)
    ensures NonIncreasing(PeriodEntriesByCount(incidents, clientHour))
    ensures multiset(PeriodEntriesByCount(incidents, clientHour)) == multiset(TimePeriodCounts(incidents, clientHour))
    ensures forall k :: 0 <= k < |PeriodEntriesByCount(incidents, clientHour)| ==>
                        PeriodEntriesByCount(incidents, clientHour)[k].0 in PeriodNames &&
                        PeriodEntriesByCount(incidents, clientHour)[k].1 > 0
  {
    var counts := TimePeriodCounts(incidents, clientHour);
    var r := PeriodEntriesByCount(incidents, clientHour);
    TimePeriodCountsCorrect(incidents, clientHour);
    forall k | 0 <= k < |r| ensures r[k].0 in PeriodNames && r[k].1 > 0 {
      assert r[k] in multiset(counts);
      var i :| 0 <= i < |counts| && counts[i] == r[k];
      assert Keys(counts)[i] == r[k].0;
      EntryPositive(incidents, clientHour, i);
    }
  }

  /** Every entry of a distinct-key counter holds what `Get` reads for its key. */
  lemma {:induction false} GetEntry<K>(c: Counts<K>, i: nat)
    requires DistinctKeys(c) && i < |c|
    ensures Get(c, c[i].0) == c[i].1
  {
    if i > 0 {
      assert c[0].0 != c[i].0;
      GetEntry(c[1..], i - 1);
    }
  }

  /** Every entry of the client's bucket counter is positive. */
  lemma EntryPositive(incidents: seq<Incident>, clientHour: Timestamp -> int, i: nat)
    requires i < |TimePeriodCounts(incidents, clientHour)|
    ensures TimePeriodCounts(incidents, clientHour)[i].1 > 0
  {
    var counts := TimePeriodCounts(incidents, clientHour);
    var k := counts[i].0;
    TimePeriodCountsCorrect(incidents, clientHour);
    assert Keys(counts)[i] == k;
    GetEntry(counts, i);
    var ps := [Morning, Afternoon, Evening, Night];
    assert k in Keys(counts) && k in PeriodNames;
    var j :| 0 <= j < |PeriodNames| && PeriodNames[j] == k;
    assert PeriodName(ps[j]) == k;
  }
}
