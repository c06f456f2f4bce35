/** The aging analysis of open receivables and payables. */
module Aging {
  import opened Results

  datatype Bucket = Upto30 | Upto60 | Upto90 | Upto180 | Over180

  /** A voucher as the analysis reads it; dates are day numbers, amounts are hundredths. */
  datatype Row = Row(tenant: nat, due: Option<int>, outstanding: int)

  datatype Report = Report(ar: map<Bucket, int>, arTotal: int, ap: map<Bucket, int>, apTotal: int)

  const RANGES: seq<(Bucket, int, int)> :=
    [(Upto30, 0, 30), (Upto60, 31, 60), (Upto90, 61, 90), (Upto180, 91, 180), (Over180, 181, 999999)]

  /** The analysis asks the repository for this many vouchers, newest first. */
  const LIMIT := 10000

  /** Days outside every range fall to the last bucket, negative ones included. */
  function BucketOf(days: int): Bucket {
    if days < 0 then Over180
    else if days <= 30 then Upto30
    else if days <= 60 then Upto60
    else if days <= 90 then Upto90
    else if days <= 180 then Upto180
    else Over180
  }

  /** The scan of the ranges finds that bucket. */
  method AgingBucket(days: int) returns (b: Bucket)
    ensures b == BucketOf(days)
  {
    for i := 0 to |RANGES|
      invariant forall j :: 0 <= j < i ==> !(RANGES[j].1 <= days <= RANGES[j].2)
    {
      var (bucket, low, high) := RANGES[i];
      if low <= days <= high {
        return bucket;
      }
    }
    assert !(RANGES[0].1 <= days <= RANGES[0].2) && !(RANGES[1].1 <= days <= RANGES[1].2);
    assert !(RANGES[2].1 <= days <= RANGES[2].2) && !(RANGES[3].1 <= days <= RANGES[3].2);
    return Over180;
  }

  /** A voucher without a due date is taken as due on the day of the report. */
  function DaysPast(row: Row, asOf: int): int {
    if row.due.Some? then asOf - row.due.value else 0
  }

  /** Which dates put a voucher into which bucket: due today or up to 30 days ago, and so on; due after
      the day of the report it is in the last one, and without a due date in the first. */
  lemma {:induction false} BucketByDates(row: Row, asOf: int)
    ensures row.due.None? ==> BucketOf(DaysPast(row, asOf)) == Upto30
    ensures row.due.Some? ==>
      var due, b := row.due.value, BucketOf(DaysPast(row, asOf));
      && (b == Upto30 <==> asOf - 30 <= due <= asOf)
      && (b == Upto60 <==> asOf - 60 <= due < asOf - 30)
      && (b == Upto90 <==> asOf - 90 <= due < asOf - 60)
      && (b == Upto180 <==> asOf - 180 <= due < asOf - 90)
      && (b == Over180 <==> due > asOf || due < asOf - 180)
  {
  }

  function Outstanding(rows: seq<Row>): int {
    if rows == [] then 0 else Outstanding(rows[..|rows| - 1]) + rows[|rows| - 1].outstanding
  }

  /** What the rows of one bucket add up to. */
  function BucketSum(rows: seq<Row>, asOf: int, b: Bucket): int {
    if rows == [] then 0
    else
      var last := rows[|rows| - 1];
      BucketSum(rows[..|rows| - 1], asOf, b) + if BucketOf(DaysPast(last, asOf)) == b then last.outstanding else 0
  }

  function Rank(b: Bucket): nat {
    match b
    case Upto30 => 0
    case Upto60 => 1
    case Upto90 => 2
    case Upto180 => 3
    case Over180 => 4
  }

  /** What is in the bucket of this rank or an older one. */
  function AgedSum(rows: seq<Row>, asOf: int, rank: nat): int {
    if rows == [] then 0
    else
      var last := rows[|rows| - 1];
      AgedSum(rows[..|rows| - 1], asOf, rank)
      + if Rank(BucketOf(DaysPast(last, asOf))) >= rank then last.outstanding else 0
  }

  function Total(buckets: map<Bucket, int>): int
    requires forall b: Bucket :: b in buckets
  {
    buckets[Upto30] + buckets[Upto60] + buckets[Upto90] + buckets[Upto180] + buckets[Over180]
  }

  /** The tenant's vouchers, in the order of the table. */
  function Of(table: seq<Row>, tenant: nat): seq<Row> {
    if table == [] then []
    else Of(table[..|table| - 1], tenant) + (if table[|table| - 1].tenant == tenant then [table[|table| - 1]] else [])
  }

  /** What is outstanding on the tenant's vouchers. */
  function OutstandingOf(table: seq<Row>, tenant: nat): int {
    if table == [] then 0
    else
      OutstandingOf(table[..|table| - 1], tenant)
      + if table[|table| - 1].tenant == tenant then table[|table| - 1].outstanding else 0
  }

  lemma {:induction false} OutstandingOfTenant(table: seq<Row>, tenant: nat)
    ensures Outstanding(Of(table, tenant)) == OutstandingOf(table, tenant)
  {
    if table != [] {
      var rest := Of(table[..|table| - 1], tenant);
      OutstandingOfTenant(table[..|table| - 1], tenant);
      var last := table[|table| - 1];
      assert (rest + [last])[..|rest|] == rest && rest + [] == rest;
    }
  }

  function Page(rows: seq<Row>): seq<Row> {
    if |rows| <= LIMIT then rows else rows[..LIMIT]
  }

  // ---------- money is conserved ----------

  /** Every amount is in exactly one bucket. */
  lemma {:induction false} BucketsPartition(rows: seq<Row>, asOf: int, buckets: map<Bucket, int>)
    requires forall b: Bucket :: b in buckets && buckets[b] == BucketSum(rows, asOf, b)
    ensures Total(buckets) == Outstanding(rows)
  {
    SumsPartition(rows, asOf);
  }

  lemma {:induction false} SumsPartition(rows: seq<Row>, asOf: int)
    ensures BucketSum(rows, asOf, Upto30) + BucketSum(rows, asOf, Upto60) + BucketSum(rows, asOf, Upto90)
            + BucketSum(rows, asOf, Upto180) + BucketSum(rows, asOf, Over180) == Outstanding(rows)
  {
    if rows != [] {
      SumsPartition(rows[..|rows| - 1], asOf);
    }
  }

  lemma {:induction false} OutstandingSplits(a: seq<Row>, b: seq<Row>)
    ensures Outstanding(a + b) == Outstanding(a) + Outstanding(b)
  {
    if b == [] {
      assert a + b == a;
    } else {
      assert (a + b)[..|a + b| - 1] == a + b[..|b| - 1];
      OutstandingSplits(a, b[..|b| - 1]);
    }
  }

  lemma {:induction false} NothingLeftIff(rows: seq<Row>)
    requires forall i :: 0 <= i < |rows| ==> rows[i].outstanding >= 0
    ensures Outstanding(rows) >= 0
    ensures Outstanding(rows) == 0 <==> forall i :: 0 <= i < |rows| ==> rows[i].outstanding == 0
  {
    if rows != [] {
      NothingLeftIff(rows[..|rows| - 1]);
      assert forall i :: 0 <= i < |rows| ==> i == |rows| - 1 || rows[i] == rows[..|rows| - 1][i];
    }
  }

  /** The report's total is all that is outstanding exactly if every voucher past the page limit is
      settled. */
  lemma {:induction false} TotalIsCompleteIff(rows: seq<Row>)
    requires forall i :: 0 <= i < |rows| ==> rows[i].outstanding >= 0
    ensures Outstanding(Page(rows)) == Outstanding(rows)
            <==> forall i :: LIMIT <= i < |rows| ==> rows[i].outstanding == 0
  {
    if |rows| > LIMIT {
      var rest := rows[LIMIT..];
      assert rows == Page(rows) + rest;
      OutstandingSplits(Page(rows), rest);
      NothingLeftIff(rest);
      assert forall i :: LIMIT <= i < |rows| ==> rows[i] == rest[i - LIMIT];
    }
  }

  // ---------- time only ages ----------

  /** A later day gives no younger bucket, except where a voucher comes due: before, it counts as
      oldest. */
  lemma {:induction false} NeverYoungerIff(row: Row, asOf: int, later: int)
    requires asOf <= later
    ensures Rank(BucketOf(DaysPast(row, asOf))) <= Rank(BucketOf(DaysPast(row, later)))
            <==> !(row.due.Some? && asOf < row.due.value <= later <= row.due.value + 180)
  {
  }

  /** With nothing coming due in between, the amount at least as old as any bucket never falls. */
  lemma {:induction false} ReportOnlyAges(rows: seq<Row>, asOf: int, later: int, rank: nat)
    requires asOf <= later
    requires forall i :: 0 <= i < |rows| ==> rows[i].outstanding >= 0
    requires forall i :: 0 <= i < |rows| && rows[i].due.Some? ==> rows[i].due.value <= asOf
    ensures AgedSum(rows, asOf, rank) <= AgedSum(rows, later, rank)
  {
    if rows != [] {
      ReportOnlyAges(rows[..|rows| - 1], asOf, later, rank);
      NeverYoungerIff(rows[|rows| - 1], asOf, later);
    }
  }

  // ---------- the report ----------

  method Accumulate(rows: seq<Row>, asOf: int) returns (buckets: map<Bucket, int>, total: int)
    ensures forall b: Bucket :: b in buckets && buckets[b] == BucketSum(rows, asOf, b)
    ensures total == Total(buckets) == Outstanding(rows)
  {
    buckets := map b: Bucket | Rank(b) <= 4 :: 0;
    for i := 0 to |rows|
      invariant forall b: Bucket :: b in buckets && buckets[b] == BucketSum(rows[..i], asOf, b)
    {
      assert rows[..i + 1][..i] == rows[..i];
      var bucket := AgingBucket(DaysPast(rows[i], asOf));
      buckets := buckets[bucket := buckets[bucket] + rows[i].outstanding];
    }
    assert rows[..|rows|] == rows;
    BucketsPartition(rows, asOf, buckets);
    total := buckets[Upto30] + buckets[Upto60] + buckets[Upto90] + buckets[Upto180] + buckets[Over180];
  }

  /** The tables hold the vouchers of all tenants, newest first. */
  method GetAgingAnalysis(arTable: seq<Row>, apTable: seq<Row>, tenant: nat, asOf: Option<int>, today: int)
    returns (r: Report)
    ensures var day := if asOf.Some? then asOf.value else today;
      && (forall b: Bucket :: b in r.ar && r.ar[b] == BucketSum(Page(Of(arTable, tenant)), day, b))
      && (forall b: Bucket :: b in r.ap && r.ap[b] == BucketSum(Page(Of(apTable, tenant)), day, b))
    ensures r.arTotal == Total(r.ar) && r.apTotal == Total(r.ap)
    ensures |Of(arTable, tenant)| <= LIMIT ==> r.arTotal == OutstandingOf(arTable, tenant)
    ensures |Of(apTable, tenant)| <= LIMIT ==> r.apTotal == OutstandingOf(apTable, tenant)
  {
    var day := if asOf.Some? then asOf.value else today;
    var arBuckets, arTotal := Accumulate(Page(Of(arTable, tenant)), day);
    var apBuckets, apTotal := Accumulate(Page(Of(apTable, tenant)), day);
    OutstandingOfTenant(arTable, tenant);
    OutstandingOfTenant(apTable, tenant);
    return Report(arBuckets, arTotal, apBuckets, apTotal);
  }
}
