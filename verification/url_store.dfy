/**
 * The `urls` table the handlers query, as an object holding a map from
 * `short_code` to the rest of the row. Each method is one SQL statement of
 * server.js and runs atomically.
 */
module UrlStore {
  import opened Wrappers

  /** A row of `urls` apart from its key: `original_url` and `clicks`. */
  datatype UrlRecord = UrlRecord(originalUrl: string, clicks: nat)

  type Rows = map<string, UrlRecord>

  /** The column default the INSERT relies on for `clicks`. */
  const DefaultClicks: nat := 0

  class Table {
    var rows: Rows

    constructor ()
      ensures rows == map[]
    {
      rows := map[];
    }

    /** SELECT ... FROM urls WHERE short_code = $1: at most one row, nothing changed. */
    method SelectByCode(code: string) returns (row: Option<UrlRecord>)
      ensures row.Some? <==> code in rows
      ensures row.Some? ==> row.value == rows[code]
    {
      row := if code in rows then Some(rows[code]) else None;
    }

    /**
     * INSERT INTO urls (original_url, short_code) VALUES ($1, $2): a new row
     * with the default click count; refused when `short_code` is already a key
     * (the column is unique).
     */
    method Insert(originalUrl: string, shortCode: string) returns (inserted: bool)
      modifies this
      ensures inserted <==> shortCode !in old(rows)
      ensures rows == if inserted then old(rows)[shortCode := UrlRecord(originalUrl, DefaultClicks)]
                      else old(rows)
    {
      inserted := shortCode !in rows;
      if inserted {
        rows := rows[shortCode := UrlRecord(originalUrl, DefaultClicks)];
      }
    }

    /**
     * UPDATE urls SET clicks = clicks + 1 WHERE short_code = $1 RETURNING clicks:
     * the new count of the matching row, or no row (and no change) when none matches.
     */
    method IncrementClicks(code: string) returns (clicks: Option<nat>)
      modifies this
      ensures clicks.Some? <==> code in old(rows)
      ensures code in old(rows) ==>
                && clicks.value == old(rows)[code].clicks + 1
                && rows == old(rows)[code := old(rows)[code].(clicks := clicks.value)]
      ensures code !in old(rows) ==> rows == old(rows)
    {
      if code in rows {
        var record := rows[code];
        clicks := Some(record.clicks + 1);
        rows := rows[code := record.(clicks := record.clicks + 1)];
      } else {
        clicks := None;
      }
    }
  }
}
