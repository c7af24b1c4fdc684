/** `GET /api/stats`: the totals the server computes over the stored
    incidents in one pass. */
module ServerStats {
  import opened Seqs
  import opened Tally
  import opened Categorizer
  import opened Incidents
  import opened TimePeriods

  datatype Stats = Stats(
    total: nat,
    byCategory: Counts<string>,
    byTimePeriod: Counts<string>,
    byCategoryAndTime: Counts<string>,
    recent: seq<Incident>)

  /** The `byTimePeriod` object before the loop: all four buckets at 0. */
  const PeriodsAtZero: Counts<string> := [("morning", 0), ("afternoon", 0), ("evening", 0), ("night", 0)]

  const PeriodNames: seq<string> := ["morning", "afternoon", "evening", "night"]

  function CategoryKey(x: Incident): string {
    CategoryName(x.category)
  }

  function PeriodKey(x: Incident): string {
    PeriodName(GetTimePeriod(x.timestamp))
  }

  /** The template key `${category}_${timePeriod}`. */
  function CategoryTimeKey(x: Incident): string {
    CategoryKey(x) + "_" + PeriodKey(x)
  }

  /** The incidents of category `c`. */
  function OfCategory(c: Category): Incident -> bool {
    (x: Incident) => x.category == c
  }

  /** The incidents in bucket `p`. */
  function InPeriod(p: Period): Incident -> bool {
    (x: Incident) => GetTimePeriod(x.timestamp) == p
  }

  /** The incidents of category `c` in bucket `p`. */
  function InCell(c: Category, p: Period): Incident -> bool {
    (x: Incident) => x.category == c && GetTimePeriod(x.timestamp) == p
  }

  /** The `forEach` loop over the incidents, with `recent` taken as
      `incidents.slice(-10).reverse()`. Every count sums to the total, and
      `recent` is the newest ten (or fewer) incidents, newest first. */
  method ComputeStats(incidents: seq<Incident>) returns (stats: Stats)
    ensures stats.total == |incidents|
    ensures stats.byCategory == TallyFrom([], incidents, CategoryKey)
    ensures stats.byTimePeriod == TallyFrom(PeriodsAtZero, incidents, PeriodKey)
    ensures stats.byCategoryAndTime == TallyFrom([], incidents, CategoryTimeKey)
    ensures Total(stats.byCategory) == stats.total
    ensures Total(stats.byTimePeriod) == stats.total
    ensures Total(stats.byCategoryAndTime) == stats.total
    ensures Keys(stats.byTimePeriod) == PeriodNames
    ensures |stats.recent| == if |incidents| < 10 then |incidents| else 10
    ensures forall k :: 0 <= k < |stats.recent| ==> stats.recent[k] == incidents[|incidents| - 1 - k]
  {
    stats := Stats(|incidents|, [], PeriodsAtZero, [], Reverse(LastN(incidents, 10)));
    var i := 0;
    while i < |incidents|
      invariant 0 <= i <= |incidents|
      invariant stats.total == |incidents| && stats.recent == Reverse(LastN(incidents, 10))
      invariant stats.byCategory == TallyFrom([], incidents[..i], CategoryKey)
      invariant stats.byTimePeriod == TallyFrom(PeriodsAtZero, incidents[..i], PeriodKey)
      invariant stats.byCategoryAndTime == TallyFrom([], incidents[..i], CategoryTimeKey)
    {
      var incident := incidents[i];
      var category := CategoryName(incident.category);
      var timePeriod := PeriodName(GetTimePeriod(incident.timestamp));
      var key := category + "_" + timePeriod;
      stats := stats.(
        byCategory := Bump(stats.byCategory, category),
        byTimePeriod := Bump(stats.byTimePeriod, timePeriod),
        byCategoryAndTime := Bump(stats.byCategoryAndTime, key));
      assert incidents[..i + 1][..i] == incidents[..i];
      i := i + 1;
    }
    assert incidents[..|incidents|] == incidents;
    StatsTotals(incidents);
  }

  /** The three counters each add up to the number of incidents, and the
      bucket counter keeps exactly its four pre-set keys: `++` only ever
      meets a key that is already there. */
  lemma StatsTotals(incidents: seq<Incident>)
    ensures Total(TallyFrom([], incidents, CategoryKey)) == |incidents|
    ensures Total(TallyFrom(PeriodsAtZero, incidents, PeriodKey)) == |incidents|
    ensures Total(TallyFrom([], incidents, CategoryTimeKey)) == |incidents|
    ensures Keys(TallyFrom(PeriodsAtZero, incidents, PeriodKey)) == PeriodNames
  {
    TallyTotal([], incidents, CategoryKey);
    TallyTotal(PeriodsAtZero, incidents, PeriodKey);
    TallyTotal([], incidents, CategoryTimeKey);
    assert Total(PeriodsAtZero) == 0;
    PresetKeys();
    forall i | 0 <= i < |incidents| ensures PeriodKey(incidents[i]) in Keys(PeriodsAtZero) {
      PeriodKeyPreset(incidents[i]);
    }
    TallyFixedKeys(PeriodsAtZero, incidents, PeriodKey);
  }

  lemma PresetKeys()
    ensures Keys(PeriodsAtZero) == PeriodNames
  {
    var ks := Keys(PeriodsAtZero);
    assert ks[0] == "morning" && ks[1] == "afternoon" && ks[2] == "evening" && ks[3] == "night";
  }

  /** Every bucket an incident can fall in is one of the pre-set keys. */
  lemma PeriodKeyPreset(x: Incident)
    ensures PeriodKey(x) in PeriodNames
  {
    PeriodNameListed(GetTimePeriod(x.timestamp));
  }

  /** Every bucket's name is one of the four pre-set keys. */
  lemma PeriodNameListed(p: Period)
    ensures PeriodName(p) in PeriodNames
  {
    match p
    case Morning => assert PeriodNames[0] == "morning";
    case Afternoon => assert PeriodNames[1] == "afternoon";
    case Evening => assert PeriodNames[2] == "evening";
    case Night => assert PeriodNames[3] == "night";
  }

  lemma FirstUnderscore(a: string, b: string)
    requires '_' !in a
    ensures forall k :: 0 <= k < |a| ==> (a + "_" + b)[k] != '_'
    ensures (a + "_" + b)[|a|] == '_'
  {
  }

  /** Joining with "_" is reversible when the left part has no "_". */
  lemma UnderscoreJoinInjective(a: string, b: string, a': string, b': string)
    requires '_' !in a && '_' !in a'
    requires a + "_" + b == a' + "_" + b'
    ensures a == a' && b == b'
  {
    var s := a + "_" + b;
    FirstUnderscore(a, b);
    FirstUnderscore(a', b');
    assert |a| == |a'|;
    assert a == s[..|a|] == a';
    assert b == s[|a| + 1..] == b';
  }

  /** The category key names exactly one category. */
  lemma CategoryKeyCount(incidents: seq<Incident>, c: Category)
    ensures CountOf(incidents, CategoryKey, CategoryName(c)) == |Filter(incidents, OfCategory(c))|
  {
    forall x: Incident ensures KeyIs(CategoryKey, CategoryName(c))(x) == OfCategory(c)(x) {
      assert KeyIs(CategoryKey, CategoryName(c))(x) == (CategoryKey(x) == CategoryName(c));
      CategoryNameInjective(x.category, c);
    }
    FilterCongruent(incidents, KeyIs(CategoryKey, CategoryName(c)), OfCategory(c));
  }

  /** The bucket key names exactly one bucket. */
  lemma PeriodKeyCount(incidents: seq<Incident>, p: Period)
    ensures CountOf(incidents, PeriodKey, PeriodName(p)) == |Filter(incidents, InPeriod(p))|
  {
    forall x: Incident ensures KeyIs(PeriodKey, PeriodName(p))(x) == InPeriod(p)(x) {
      assert KeyIs(PeriodKey, PeriodName(p))(x) == (PeriodKey(x) == PeriodName(p));
      PeriodNameInjective(GetTimePeriod(x.timestamp), p);
    }
    FilterCongruent(incidents, KeyIs(PeriodKey, PeriodName(p)), InPeriod(p));
  }

  /** `byCategory[c]` is the number of incidents of category `c`. */
  lemma CategoryCount(incidents: seq<Incident>, c: Category)
    ensures Get(TallyFrom([], incidents, CategoryKey), CategoryName(c)) == |Filter(incidents, OfCategory(c))|
  {
    TallyGet([], incidents, CategoryKey, CategoryName(c));
    CategoryKeyCount(incidents, c);
  }

  /** `byTimePeriod[p]` is the number of incidents in bucket `p`. */
  lemma PeriodCount(incidents: seq<Incident>, p: Period)
    ensures Get(TallyFrom(PeriodsAtZero, incidents, PeriodKey), PeriodName(p)) == |Filter(incidents, InPeriod(p))|
  {
    TallyGet(PeriodsAtZero, incidents, PeriodKey, PeriodName(p));
    assert Get(PeriodsAtZero, PeriodName(p)) == 0;
    PeriodKeyCount(incidents, p);
  }

  /** `byCategoryAndTime["<c>_<p>"]` is the number of incidents of category
      `c` in bucket `p`: the combined key never confuses two cells. */
  lemma CellCount(incidents: seq<Incident>, c: Category, p: Period)
    ensures Get(TallyFrom([], incidents, CategoryTimeKey), CategoryName(c) + "_" + PeriodName(p)) ==
            |Filter(incidents, InCell(c, p))|
  {
    var key := CategoryName(c) + "_" + PeriodName(p);
    TallyGet([], incidents, CategoryTimeKey, key);
    forall x: Incident ensures KeyIs(CategoryTimeKey, key)(x) == InCell(c, p)(x) {
      CellKey(x, c, p);
    }
    FilterCongruent(incidents, KeyIs(CategoryTimeKey, key), InCell(c, p));
  }

  /** An incident's combined key is the key of cell (c, p) exactly when it
      lies in that cell. */
  lemma CellKey(x: Incident, c: Category, p: Period)
    ensures KeyIs(CategoryTimeKey, CategoryName(c) + "_" + PeriodName(p))(x) == InCell(c, p)(x)
  {
    CategoryNameInjective(x.category, c);
    PeriodNameInjective(GetTimePeriod(x.timestamp), p);
    CategoryNameInjective(c, c);
    PeriodNameInjective(p, p);
    if CategoryTimeKey(x) == CategoryName(c) + "_" + PeriodName(p) {
      UnderscoreJoinInjective(CategoryName(x.category), PeriodName(GetTimePeriod(x.timestamp)), CategoryName(c), PeriodName(p));
    }
  }
}
