/**
 Turning the rows of the provider's cursor into entries (the body of the
 `while (c.moveToNext())` loop). Each row's `timeLastUpdateUtc` text goes through
 the injected date parser; a row whose text is NULL, fails to parse or parses to
 null is skipped and the batch goes on. A surviving row becomes an entry whose
 timestamp is the parsed UTC instant moved to local time and whose rate is the
 row's `exchangeRate`.
 */
module Rows {
  import opened Wrappers
  import opened TimeZone
  import opened Entries

  /**
   The two cells the loop reads from one row: `time` is what `getString` returned
   (None for a SQL NULL cell), `rate` what `getDouble` returned.
   */
  datatype RawRow = RawRow(time: Option<string>, rate: real)

  /**
   The fixed-format UTC date parser: Some(instant) on success, None when it throws
   or returns null (the loop treats both alike).
   */
  type Parser = string -> Option<int>

  /** The UTC instant a row's timestamp text parses to, if any; a NULL cell makes the parser throw. */
  function ParsedUtc(parse: Parser, row: RawRow): Option<int>
  {
    match row.time
    case None => None
    case Some(text) => parse(text)
  }

  /** The entry one row contributes, or None when the row is skipped. */
  function ParseRow(parse: Parser, offset: OffsetAt, row: RawRow): (r: Option<Entry>)
    ensures r.None? <==> ParsedUtc(parse, row).None?
    ensures r.Some? ==> r.value.rate == row.rate
    ensures r.Some? ==> r.value.timestamp - ParsedUtc(parse, row).value == offset(ParsedUtc(parse, row).value)
  {
    match ParsedUtc(parse, row)
    case None => None
    case Some(utc) => Some(Entry(UtcToLocal(offset, utc), row.rate))
  }

  /**
   The entries of a batch of rows, in arrival order, skipped rows left out: no
   row is lost exactly when every row's timestamp parses.
   */
  function ParseRows(parse: Parser, offset: OffsetAt, rows: seq<RawRow>): (es: seq<Entry>)
    ensures |es| <= |rows|
    ensures |es| == |rows| <==> forall i :: 0 <= i < |rows| ==> ParsedUtc(parse, rows[i]).Some?
  {
    if |rows| == 0 then []
    else
      var head := match ParseRow(parse, offset, rows[0])
        case None => []
        case Some(e) => [e];
      assert forall i :: 1 <= i < |rows| ==> rows[i] == rows[1..][i - 1];
      head + ParseRows(parse, offset, rows[1..])
  }

  /** How many rows of the batch have a timestamp that does not parse; none exactly when every row parses. */
  function SkippedCount(parse: Parser, rows: seq<RawRow>): (n: nat)
    ensures n <= |rows|
    ensures n == 0 <==> forall i :: 0 <= i < |rows| ==> ParsedUtc(parse, rows[i]).Some?
  {
    if |rows| == 0 then 0
    else
      assert forall i :: 1 <= i < |rows| ==> rows[i] == rows[1..][i - 1];
      (if ParsedUtc(parse, rows[0]).None? then 1 else 0) + SkippedCount(parse, rows[1..])
  }

  /** One entry per row except the skipped ones. */
  lemma {:induction false} ParseRowsCount(parse: Parser, offset: OffsetAt, rows: seq<RawRow>)
    ensures |ParseRows(parse, offset, rows)| == |rows| - SkippedCount(parse, rows)
  {
    if |rows| > 0 {
      ParseRowsCount(parse, offset, rows[1..]);
    }
  }

  /** Parsing a batch split in two parses each part and concatenates, in order. */
  lemma {:induction false} ParseRowsAppend(parse: Parser, offset: OffsetAt, a: seq<RawRow>, b: seq<RawRow>)
    ensures ParseRows(parse, offset, a + b) == ParseRows(parse, offset, a) + ParseRows(parse, offset, b)
  {
    if |a| == 0 {
      assert a + b == b;
    } else {
      assert (a + b)[0] == a[0];
      assert (a + b)[1..] == a[1..] + b;
      ParseRowsAppend(parse, offset, a[1..], b);
    }
  }

  /**
   Every produced entry comes from a row that parsed, carrying that row's rate and
   its parsed instant moved to local time; and every row that parsed produces one.
   */
  lemma {:induction false} ParseRowsMembers(parse: Parser, offset: OffsetAt, rows: seq<RawRow>, e: Entry)
    ensures e in ParseRows(parse, offset, rows)
            <==> exists i :: 0 <= i < |rows| && ParsedUtc(parse, rows[i]).Some?
                             && e == Entry(UtcToLocal(offset, ParsedUtc(parse, rows[i]).value), rows[i].rate)
  {
    if |rows| > 0 {
      ParseRowsMembers(parse, offset, rows[1..], e);
      var tail := rows[1..];
      if exists i :: 0 <= i < |tail| && ParsedUtc(parse, tail[i]).Some?
                     && e == Entry(UtcToLocal(offset, ParsedUtc(parse, tail[i]).value), tail[i].rate) {
        var i :| 0 <= i < |tail| && ParsedUtc(parse, tail[i]).Some?
                 && e == Entry(UtcToLocal(offset, ParsedUtc(parse, tail[i]).value), tail[i].rate);
        assert tail[i] == rows[i + 1];
      }
    }
  }

  /**
   The cursor loop itself: walks the rows in order and appends the entry of every
   row that parses.
   */
  method ReadRows(parse: Parser, offset: OffsetAt, rows: seq<RawRow>) returns (acc: seq<Entry>)
    ensures acc == ParseRows(parse, offset, rows)
  {
    acc := [];
    var i := 0;
    while i < |rows|
      invariant 0 <= i <= |rows|
      invariant acc == ParseRows(parse, offset, rows[..i])
    {
      var row := rows[i];
      var parsed := ParseRow(parse, offset, row);
      if parsed.Some? {
        acc := acc + [parsed.value];
      }
      ParseRowsAppend(parse, offset, rows[..i], [row]);
      assert rows[..i + 1] == rows[..i] + [row];
      i := i + 1;
    }
    assert rows[..i] == rows;
  }
}
