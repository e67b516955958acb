# GoMySQL result sets and column flags, in Dafny

This project models the result-set part of the GoMySQL client library (`mysql_result.go`).

A query result holds several parts:

- the header counts: affected rows, insert id, warning count and message;
- the column definitions;
- the rows;
- a cursor over the rows.

`FetchRow` and `FetchMap` hand out the row under the cursor and advance it. At the end they return nil (`None` here) and leave the cursor where it is. `Reset` moves the cursor back to the first row. A row is handed out only while `RowCount` is positive and the cursor is inside `Rows`.

Each column definition carries a flags object. The client decoder `process` fills it from the 16-bit flags word the server sends:

1. It strips the four weights 4096..32768, which MySQL 5.1 sends beyond the documented ones.
2. It then subtracts the twelve documented weights, largest first, whenever the remainder is at least that weight. Each subtraction sets one attribute: SET = 2048 down to NOT_NULL = 1.

The model proves the following things:

- The subtract-if-at-least decoder sets exactly the attributes whose bit is set in the word.
- It ignores the unknown high weights.
- It never wraps the 16-bit remainder, and the remainder ends at 0.
- It never clears an attribute.
- The per-bit decoding and the sum of weights are inverse to each other.
- The decoder agrees with per-bit tests because its table of weights is the gapless table 2^15 … 2^0 (`Bits.GapBreaksGreedy` shows that distinct powers of two alone would not be enough).

Files:

- `bits.dfy` (module `Bits`): unsigned widths, and bit arithmetic on naturals. `Bit`, `Low` and `Value` are written without nonlinear arithmetic. Also the greedy decomposition and its agreement with per-bit tests.
- `flags.dfy` (module `Flags`): the flag weights, the `Attributes` value, the reference `Decode`/`Encode` pair, and the `FieldFlags` class with `Process`.
- `result.dfy` (module `Results`): `Field`, `Row`, the `RowMap` specification of `FetchMap`, and the `ResultSet` class with `FetchRow`, `FetchMap` and `Reset`.

`ResultSet.Pending()` is the specification of the cursor: the data the coming fetches will hand out, in order. Every successful fetch removes the head of `Pending()`. A fetch returns `None` exactly when `Pending()` is empty, and after that `Pending()` stays empty. Repeated calls therefore yield the rows in order and then nil for ever. `Reset` makes `Pending()` the data of all rows again.

## Model

| member | source | states |
|---|---|---|
| Results.ResultSet.constructor | mysql_result.go:12-28 | a new result set is the Go zero value: all counts 0, no fields, no rows, cursor 0, so nothing is pending |
| Results.ResultSet.FetchRow | mysql_result.go:33-42 | with RowCount > 0 and the cursor inside Rows, returns that row's data and advances the cursor by one; otherwise returns None and leaves the cursor unchanged; only the cursor changes; the bound cursor <= len(Rows) is kept; returns None exactly when nothing is pending, and a returned row is the head of what was pending |
| Results.ResultSet.FetchMap | mysql_result.go:47-60 | same guard and advance as FetchRow; the returned map is RowMap of the column definitions and the current row; requires a column definition for every value of the current row (Go panics otherwise) |
| Results.ResultSet.Reset | mysql_result.go:65-67 | the cursor is 0 whatever it was before, so a second Reset changes nothing; the cursor bound holds and all rows are pending again |
| Results.RowData | mysql_result.go:36 | the data handed out for a list of rows has one entry per row, each row's Data in order |
| Results.RowMapKeys | mysql_result.go:51-54 | a name is a key of the row map if and only if it is the name of one of the first len(row) columns |
| Results.RowMapLastWins | mysql_result.go:52-54 | the value under column i's name is column i's value when no later column of the row has the same name (the last write wins) |
| Results.RowMapDistinctNames | mysql_result.go:51-54 | with distinct column names, every value of the row is found under its column's name |
| Flags.FieldFlags.constructor | mysql_result.go:83-96 | a new flags object has all twelve attributes false |
| Flags.FieldFlags.Process | mysql_result.go:102-157 | afterwards each attribute is its old value or-ed with the per-bit test of its weight in the word: present weights are set, nothing is cleared |
| Flags.FieldFlags.Absorb | mysql_result.go:109-156 | sets to true the attributes the scan found and leaves the others unchanged |
| Flags.Scan | mysql_result.go:103-156 | the four unknown weights are dropped, then the documented weights are subtracted largest first; the attributes found are exactly `Decode(flags)`; the returned remainder never wraps, is 0 at the end, and equals the remainder of `Greedy` over the decoder's table |
| Flags.TakeWeight | mysql_result.go:109-112 | one guarded subtraction: the weight 2^k is present exactly when bit k of the word is set, and the remainder drops from the bits below k+1 to the bits below k without wrapping |
| Flags.ProcessFresh | mysql_result.go:102-157 | a client of `process`, not a Go function: processing a word into a fresh flags object yields exactly the per-bit decoding of the word |
| Flags.DecodeEncode | mysql_result.go:102-157 | the word a server sends for a set of attributes (the sum of their weights) decodes back to that set |
| Flags.EncodeDecode | mysql_result.go:109-156 | a word without unknown weights is the sum of the weights of the attributes it decodes to |
| Flags.DecodeAsLowBits | mysql_result.go:109-156 | the decoded attributes, in weight order, are the low twelve bits of the word |
| Flags.UnknownPartIgnored | mysql_result.go:103-107 | adding any multiple of FLAG_UNKNOWN_1 to a word changes no attribute |
| Flags.DecodeIgnoresUnknown | mysql_result.go:103-107 | a word and the word with FLAG_UNKNOWN_1..4 cleared decode to the same attributes |
| Flags.UnknownWeightsOnTop | mysql_result.go:103-107 | any set of documented weights plus any combination of unknown weights fits in 16 bits and decodes to exactly that set |
| Flags.DecodeZero | mysql_result.go:102-157 | the word 0 decodes to no attributes |
| Flags.DecodeAllKnown | mysql_result.go:109-156 | the sum of all twelve documented weights decodes to all twelve attributes |
| Flags.ProcessZeroChangesNothing | mysql_result.go:102-157 | processing the word 0 leaves every attribute as it was |
| Flags.ProcessAllKnownSetsAll | mysql_result.go:102-157 | processing the sum of the twelve documented weights, with any unknown weights added, sets every attribute |
| Flags.ProtocolWeightsDescending | mysql_result.go:104-155 | the weights the decoder tests, in its order, are 2^15, 2^14, …, 2^0 with no gap |
| Flags.ProtocolDecomposition | mysql_result.go:104-155 | subtract-if-at-least over the decoder's sixteen weights takes exactly the weights whose bits are set and leaves remainder 0 |
| Bits.GreedyMatchesBits | mysql_result.go:100-157 | over the gapless descending table, subtract-if-at-least agrees with per-bit tests and leaves nothing over, which is the binary reading that line 100's comment alludes to |
| Bits.GreedyDecodesValue | mysql_result.go:104-156 | for a value below 2^n, the decomposition starting from the value itself is its bits, highest first, with remainder 0 |
| Bits.GapBreaksGreedy | mysql_result.go:104-156 | the decoder's correctness depends on the table having no gap: with weights [4, 1], the value 2 is reported as containing weight 1 although bit 0 is clear |
| Bits.LowStep | mysql_result.go:109-156 | the bits below k+1 are the bits below k plus weight 2^k exactly when bit k is set (the arithmetic fact one decoder step relies on) |
| Bits.BitOfValue | mysql_result.go:109-156 | bit k of a sum of distinct weights 2^i is set exactly when weight 2^k is in the sum |

## Left out

- The reader in `mysql.go` fills the result set (`fieldsRead`, `fieldsEOF`, `rowsEOF`, the counts, the rows). It is not part of this model. Those fields are plain fields here.
- Row values have Go type `interface{}`. Here they are a type parameter `V`.
- `Fields`, `Rows` and `Flags` are Go pointers (`[]*MySQLField`, `[]*MySQLRow`, `*MySQLFieldFlags`). They are modelled as values: aliasing through them is not modelled, and neither is the panic on a nil row or nil field.
- The FLAG_* constants are defined in a file that is not part of this model. `Flags` declares them with the protocol's values.
- Go map iteration order is not modelled. `FetchMap` iterates the row slice in index order, which the model keeps; map order is never observed.
- Concurrent use of one result set is not modelled, and neither is the network transport.
- Results.ResultSet.pointer: Go's `pointer` is an `int`. It is a `nat` here, because only `Reset` (to 0) and a guarded increment below `len(Rows)` change it. So it can neither go negative nor overflow.
- Flags.FieldFlags.Process: Go sets each attribute inside the step that finds its weight. The model first runs the whole scan (`Scan`) and then writes the twelve fields (`Absorb`). The final state is the same, and nothing reads the fields in between.
- Results.ResultSet.FetchRow: a row whose `Data` slice is nil comes back from Go as nil, the same value that signals the end. The model does not distinguish nil from empty slices, so it returns `Some([])` for such a row.
