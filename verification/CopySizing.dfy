/** How one table is streamed, and what that costs in D1 queries (`sizeTable`). */
module CopySizing {
  import opened Common
  import opened Introspect

  const MAX_BOUND_PARAMS := 100
  const QUERY_BUDGET := 1000
  const REFRESH_RESERVE := 100
  const READ_PAGE_BYTES := 8 * 1024 * 1024
  const MAX_READ_PAGE := 10_000
  const STATEMENT_BYTES := 64 * 1024
  const BATCH_BYTES := 1024 * 1024
  const MAX_BATCH_STATEMENTS := 1000
  const FIXED_QUERIES := 7

  datatype TablePlan = TablePlan(
    table: string,
    sourceRows: nat,
    destRows: nat,
    avgRowBytes: nat,
    readPage: nat,
    rowsPerStatement: nat,
    statementsPerBatch: nat,
    queries: nat)

  function CeilDiv(a: nat, b: nat): nat
    requires b > 0
  {
    (a + b - 1) / b
  }

  function AvgRowBytes(rows: nat, bytes: nat): (r: nat)
    ensures r >= 1
  {
    if rows > 0 then Max(1, CeilDiv(bytes, rows)) else 1
  }

  function RowsPerStatement(columns: nat, avg: nat): (r: nat)
    requires avg >= 1
    ensures r >= 1
  {
    var byParams := Max(1, MAX_BOUND_PARAMS / Max(1, columns));
    Max(1, Min(byParams, STATEMENT_BYTES / avg))
  }

  function StatementsPerBatch(avg: nat, perStatement: nat): (r: nat)
    requires avg >= 1 && perStatement >= 1
    ensures r >= 1
  {
    assert avg * perStatement >= 1;
    Max(1, Min(MAX_BATCH_STATEMENTS, Min(BATCH_BYTES / (avg * perStatement), MAX_READ_PAGE / perStatement)))
  }

  function ReadPage(avg: nat, perBatch: nat): (r: nat)
    requires avg >= 1 && perBatch >= 1
    ensures r >= perBatch
  {
    var pageRows := Min(MAX_READ_PAGE, READ_PAGE_BYTES / avg);
    Max(perBatch, (pageRows / perBatch) * perBatch)
  }

  // The parts of `queries`.
  function Reads(n: nat, readPage: nat): nat requires readPage > 0 { n / readPage + 1 }

  function SelfRefBatches(n: nat, selfRefs: nat, pk: nat): nat {
    if selfRefs > 0 && pk > 0 then CeilDiv(n * selfRefs, MAX_BATCH_STATEMENTS) else 0
  }

  function SizeTable(info: TableInfo, sourceRows: nat, destRows: nat, sourceBytes: nat): TablePlan {
    var avg := AvgRowBytes(sourceRows, sourceBytes);
    var perStatement := RowsPerStatement(|info.columns|, avg);
    var perBatch := StatementsPerBatch(avg, perStatement);
    assert perStatement * perBatch >= 1;
    var readPage := ReadPage(avg, perStatement * perBatch);
    TablePlan(info.name, sourceRows, destRows, avg, readPage, perStatement, perBatch,
              Reads(sourceRows, readPage) + CeilDiv(sourceRows, perStatement * perBatch)
              + SelfRefBatches(sourceRows, |info.selfRefColumns|, |info.pkColumns|))
  }

  // Every read page splits into whole batches.
  ghost predicate WellSized(plan: TablePlan) {
    && plan.rowsPerStatement >= 1 && plan.statementsPerBatch >= 1
    && plan.readPage >= plan.rowsPerStatement * plan.statementsPerBatch >= 1
    && plan.readPage % (plan.rowsPerStatement * plan.statementsPerBatch) == 0
  }

  lemma MulMonotone(a: nat, b: nat, c: nat)
    requires a <= b
    ensures a * c <= b * c
  {
  }

  lemma MultipleMod(k: nat, b: nat)
    requires b > 0
    ensures (k * b) % b == 0
  {
    var q, r := (k * b) / b, (k * b) % b;
    assert k * b == q * b + r;
    if k > q { MulMonotone(q + 1, k, b); }
    if k < q { MulMonotone(k + 1, q, b); }
  }

  lemma ReadPageWhole(avg: nat, perBatch: nat)
    requires avg >= 1 && perBatch >= 1
    ensures ReadPage(avg, perBatch) % perBatch == 0
  {
    MultipleMod(1, perBatch);
    MultipleMod(Min(MAX_READ_PAGE, READ_PAGE_BYTES / avg) / perBatch, perBatch);
  }

  lemma SizeTableWellSized(info: TableInfo, sourceRows: nat, destRows: nat, sourceBytes: nat)
    ensures WellSized(SizeTable(info, sourceRows, destRows, sourceBytes))
  {
    var plan := SizeTable(info, sourceRows, destRows, sourceBytes);
    MulMonotone(1, plan.rowsPerStatement, plan.statementsPerBatch);
    ReadPageWhole(plan.avgRowBytes, plan.rowsPerStatement * plan.statementsPerBatch);
  }

  lemma QuotientFits(limit: nat, size: nat, q: nat)
    requires size > 0 && q <= limit / size
    ensures q * size <= limit
  {
  }

  lemma CeilDivBounds(a: nat, b: nat)
    requires b > 0
    ensures a <= CeilDiv(a, b) * b
    ensures CeilDiv(a, b) == 0 <==> a == 0
    ensures a > 0 ==> (CeilDiv(a, b) - 1) * b < a
  {
  }

  // The least whole number of bytes, at least one, that covers a row on average.
  ghost predicate IsAverage(a: nat, rows: nat, bytes: nat) {
    && a >= 1
    && (rows > 0 ==> a * rows >= bytes)
    && (a > 1 ==> (a - 1) * rows < bytes && rows > 0)
  }

  /** The measured bytes, and nothing else, decide the row size. */
  lemma AverageIsMeasured(rows: nat, bytes: nat)
    ensures IsAverage(AvgRowBytes(rows, bytes), rows, bytes)
  {
    if rows > 0 { CeilDivBounds(bytes, rows); }
  }

  lemma QuotientEnds(limit: nat, size: nat, q: nat)
    requires size > 0 && q > limit / size
    ensures q * size > limit
  {
    assert limit == (limit / size) * size + limit % size;
    MulMonotone(limit / size + 1, q, size);
  }

  // As many rows as the parameters and the bytes of one statement allow, and at least one.
  lemma StatementLimits(columns: nat, avg: nat)
    requires avg >= 1
    ensures var r := RowsPerStatement(columns, avg);
      && r <= 100
      && (r == 1 || (r * columns <= 100 && r * avg <= 65_536))
      && ((r + 1) * Max(1, columns) > 100 || (r + 1) * avg > 65_536)
  {
    var r := RowsPerStatement(columns, avg);
    var width := Max(1, columns);
    if r > 1 {
      QuotientFits(100, width, r);
      QuotientFits(65_536, avg, r);
    }
    if r + 1 > 65_536 / avg { QuotientEnds(65_536, avg, r + 1); } else { QuotientEnds(100, width, r + 1); }
  }

  lemma BatchFits(avg: nat, perStatement: nat)
    requires avg >= 1 && 1 <= perStatement <= 100
    requires perStatement * avg <= 65_536 || perStatement == 1
    ensures var s := StatementsPerBatch(avg, perStatement);
      && s <= 1000
      && perStatement * s <= 10_000
      && (perStatement * s == 1 || perStatement * s * avg <= 1_048_576)
  {
    var s, size := StatementsPerBatch(avg, perStatement), avg * perStatement;
    assert size >= 1;
    if s > 1 {
      QuotientFits(10_000, perStatement, s);
      QuotientFits(1_048_576, size, s);
      assert s * perStatement == perStatement * s;
      assert s * size == perStatement * s * avg;
    }
  }

  lemma BatchFills(avg: nat, perStatement: nat)
    requires avg >= 1 && perStatement >= 1
    ensures var s := StatementsPerBatch(avg, perStatement);
      s + 1 > 1000 || perStatement * (s + 1) > 10_000 || perStatement * (s + 1) * avg > 1_048_576
  {
    var s, size := StatementsPerBatch(avg, perStatement), avg * perStatement;
    assert size >= 1;
    if s + 1 > 10_000 / perStatement {
      QuotientEnds(10_000, perStatement, s + 1);
      assert (s + 1) * perStatement == perStatement * (s + 1);
    } else if s + 1 > 1_048_576 / size {
      QuotientEnds(1_048_576, size, s + 1);
      assert (s + 1) * size == perStatement * (s + 1) * avg;
    }
  }

  // As many statements as a batch may hold, in number, bytes and rows, and at least one.
  lemma BatchLimits(avg: nat, perStatement: nat)
    requires avg >= 1 && 1 <= perStatement <= 100
    requires perStatement * avg <= 65_536 || perStatement == 1
    ensures var s := StatementsPerBatch(avg, perStatement);
      && s <= 1000
      && perStatement * s <= 10_000
      && (perStatement * s == 1 || perStatement * s * avg <= 1_048_576)
      && (s + 1 > 1000 || perStatement * (s + 1) > 10_000 || perStatement * (s + 1) * avg > 1_048_576)
  {
    hide StatementsPerBatch;
    BatchFits(avg, perStatement);
    BatchFills(avg, perStatement);
  }

  // As many whole batches as a page may hold, in rows and bytes, and at least one.
  lemma PageLimits(avg: nat, perBatch: nat)
    requires avg >= 1 && 1 <= perBatch <= 10_000
    requires perBatch * avg <= 1_048_576 || perBatch == 1
    ensures var p := ReadPage(avg, perBatch);
      && p <= 10_000
      && (p == 1 || p * avg <= 8_388_608)
      && (p + perBatch > 10_000 || (p + perBatch) * avg > 8_388_608)
  {
    var p, rows := ReadPage(avg, perBatch), Min(10_000, 8_388_608 / avg);
    var k := rows / perBatch;
    assert rows == k * perBatch + rows % perBatch;
    if p == k * perBatch {
      MulMonotone(p, rows, avg);
      QuotientFits(8_388_608, avg, rows);
    }
    assert (k + 1) * perBatch > rows;
    assert p + perBatch > rows;
    if rows < 10_000 { QuotientEnds(8_388_608, avg, p + perBatch); }
  }

  // A limit on rows of average size is one on the measured bytes.
  lemma MeasuredLimit(r: nat, avg: nat, rows: nat, bytes: nat, limit: nat)
    requires r * avg <= limit && avg * rows >= bytes
    ensures r * bytes <= limit * rows
  {
    MulMonotone(bytes, avg * rows, r);
    assert r * (avg * rows) == (r * avg) * rows;
    MulMonotone(r * avg, limit, rows);
  }

  /** The platform limits hold on the measured bytes of a table with rows: bound parameters and
      bytes per INSERT, statements, rows and bytes per batch, rows and bytes per page, each
      unless a single row already exceeds it. */
  lemma SizeTableWithinLimits(info: TableInfo, sourceRows: nat, destRows: nat, sourceBytes: nat)
    ensures var plan := SizeTable(info, sourceRows, destRows, sourceBytes);
      var r, perBatch := plan.rowsPerStatement, plan.rowsPerStatement * plan.statementsPerBatch;
      && (r == 1 || r * |info.columns| <= 100)
      && plan.statementsPerBatch <= 1000 && perBatch <= 10_000 && plan.readPage <= 10_000
      && (sourceRows > 0 ==>
           && (r == 1 || r * sourceBytes <= 65_536 * sourceRows)
           && (perBatch == 1 || perBatch * sourceBytes <= 1_048_576 * sourceRows)
           && (plan.readPage == 1 || plan.readPage * sourceBytes <= 8_388_608 * sourceRows))
  {
    var plan := SizeTable(info, sourceRows, destRows, sourceBytes);
    var avg, r, perBatch := plan.avgRowBytes, plan.rowsPerStatement, plan.rowsPerStatement * plan.statementsPerBatch;
    AverageIsMeasured(sourceRows, sourceBytes);
    StatementLimits(|info.columns|, avg);
    BatchLimits(avg, r);
    PageLimits(avg, perBatch);
    if sourceRows > 0 {
      if r > 1 { MeasuredLimit(r, avg, sourceRows, sourceBytes, 65_536); }
      if perBatch > 1 { MeasuredLimit(perBatch, avg, sourceRows, sourceBytes, 1_048_576); }
      if plan.readPage > 1 { MeasuredLimit(plan.readPage, avg, sourceRows, sourceBytes, 8_388_608); }
    }
  }

  /** Nothing is smaller than it has to be: one more row per statement, one more statement per
      batch or one more batch per page breaks a limit. */
  lemma SizeTableIsMaximal(info: TableInfo, sourceRows: nat, destRows: nat, sourceBytes: nat)
    ensures var plan := SizeTable(info, sourceRows, destRows, sourceBytes);
      var avg, r, s, p := plan.avgRowBytes, plan.rowsPerStatement, plan.statementsPerBatch, plan.readPage;
      && IsAverage(avg, sourceRows, sourceBytes)
      && ((r + 1) * Max(1, |info.columns|) > 100 || (r + 1) * avg > 65_536)
      && (s + 1 > 1000 || r * (s + 1) > 10_000 || r * (s + 1) * avg > 1_048_576)
      && (p + r * s > 10_000 || (p + r * s) * avg > 8_388_608)
  {
    var plan := SizeTable(info, sourceRows, destRows, sourceBytes);
    AverageIsMeasured(sourceRows, sourceBytes);
    StatementLimits(|info.columns|, plan.avgRowBytes);
    BatchLimits(plan.avgRowBytes, plan.rowsPerStatement);
    PageLimits(plan.avgRowBytes, plan.rowsPerStatement * plan.statementsPerBatch);
  }

  // ----- counting batches

  lemma CeilDivUnique(a: nat, b: nat, q: nat)
    requires b > 0 && a <= q * b && (q == 0 || (q - 1) * b < a)
    ensures CeilDiv(a, b) == q
  {
    var c := CeilDiv(a, b);
    assert a + b - 1 == c * b + (a + b - 1) % b;
    if c < q { MulMonotone(c, q - 1, b); }
    if c > q { MulMonotone(q + 1, c, b); }
  }

  lemma CeilDivMonotone(a: nat, c: nat, b: nat)
    requires b > 0 && a <= c
    ensures CeilDiv(a, b) <= CeilDiv(c, b)
  {
    hide CeilDiv;
    CeilDivBounds(a, b);
    CeilDivBounds(c, b);
    if CeilDiv(a, b) > CeilDiv(c, b) { MulMonotone(CeilDiv(c, b), CeilDiv(a, b) - 1, b); }
  }

  /** Cutting at a whole number of batches loses none. */
  lemma CeilDivSplit(k: nat, r: nat, b: nat)
    requires b > 0
    ensures CeilDiv(k * b + r, b) == k + CeilDiv(r, b)
  {
    hide CeilDiv;
    CeilDivBounds(r, b);
    var q := k + CeilDiv(r, b);
    assert q * b == k * b + CeilDiv(r, b) * b;
    if q > 0 {
      assert (q - 1) * b == k * b + (CeilDiv(r, b) - 1) * b;
    }
    CeilDivUnique(k * b + r, b, q);
  }

  lemma CeilDivSum(a: nat, c: nat, b: nat)
    requires b > 0
    ensures CeilDiv(a + c, b) <= CeilDiv(a, b) + CeilDiv(c, b)
  {
    hide CeilDiv;
    CeilDivBounds(a, b);
    CeilDivBounds(c, b);
    CeilDivBounds(0, b);
    var q := CeilDiv(a, b) + CeilDiv(c, b);
    assert q * b == CeilDiv(a, b) * b + CeilDiv(c, b) * b;
    CeilDivMonotone(a + c, q * b, b);
    CeilDivSplit(q, 0, b);
  }

  /** Batching the statements of `p` rows is batching the rows by whole batches. */
  lemma CeilDivNested(p: nat, perStatement: nat, perBatch: nat)
    requires perStatement > 0 && perBatch > 0
    ensures perStatement * perBatch > 0
    ensures CeilDiv(CeilDiv(p, perStatement), perBatch) == CeilDiv(p, perStatement * perBatch)
  {
    hide CeilDiv;
    var s := CeilDiv(p, perStatement);
    var q := CeilDiv(s, perBatch);
    CeilDivBounds(p, perStatement);
    CeilDivBounds(s, perBatch);
    MulMonotone(1, perStatement, perBatch);
    MulMonotone(s, q * perBatch, perStatement);
    assert q * perBatch * perStatement == q * (perStatement * perBatch);
    if q > 0 {
      assert (q - 1) * perBatch <= s - 1;
      MulMonotone((q - 1) * perBatch, s - 1, perStatement);
      assert (q - 1) * perBatch * perStatement == (q - 1) * (perStatement * perBatch);
    }
    CeilDivUnique(p, perStatement * perBatch, q);
  }
}
