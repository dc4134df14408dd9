# Verified model of the Instacart basket-preparation pipeline

`task1.py` turns raw e-commerce order logs into a transaction table for
market-basket analysis. Under the CSV reading and printing sits a row-filtering
pipeline over `(order_id, product_id)` order lines, and that pipeline is what
this project models and proves things about:

1. **Order cohort** (`orders.dfy`, module `Orders`). Orders with a missing
   `order_id`, `user_id` or `eval_set` are dropped. Up to `N_USERS = 20000`
   distinct users are sampled without replacement. Only the sampled users'
   `"prior"` orders are kept, and their order ids form the *eligible* set.
2. **Chunk loop** (`lines.dfy`, `streaming.dfy`, modules `Lines` and
   `Streaming`). Each chunk of the order-line file loses its rows with a
   missing key and its rows of non-eligible orders. Repeated
   `(order_id, product_id)` pairs are then removed within the chunk, keeping
   the first. The chunk's order ids are added to one running `Counter`
   (`counter.dfy`), and the cleaned chunks are concatenated in chunk order.
3. **Basket-size filter** (`filters.dfy`, module `Filters`). The orders the
   counter saw at least twice (`>= 2`, inclusive) are kept. The same set cuts
   both the line table and the order-header table.
4. **Product-frequency filter** (`filters.dfy`). Products with at least
   `MIN_PRODUCT_COUNT = 50` lines (inclusive) are kept.
5. **Enrichment** (`enrich.dfy`, module `Enrichment`). A left join attaches
   product names, and rows without a name are dropped.

`pipeline.dfy` (module `Pipeline`) chains the stages and states the
properties of the whole run. `table.dfy` (module `Table`) holds the shared
sequence vocabulary: nullable cells (`Option`), boolean masks (`Filter`),
first-occurrence de-duplication (`Dedup`), subsequences and occurrence counts.

Modelling choices:

- Rows are immutable datatypes whose key cells are `Option` values, as in
  pandas, where any cell may be missing. Every stage is a function from a
  table to a subsequence of it. Only the chunk loop and `Counter.update` are
  imperative loops.
- The fact file arrives as `seq<seq<LineRow>>`, an arbitrary partition into
  chunks. The chunk size is not modelled.
- `rng.choice(unique_users, size, replace=False)` is modelled by
  `Orders.Choice`, with the generator's output as a parameter `draws`. The
  k-th pick takes position `draws[k] mod m` of the `m` users not picked yet,
  and a missing draw reads as 0. Every way of drawing `size` distinct
  positions is such a sequence of picks, and every `draws` gives a valid
  draw.
- The product catalogue is a `map<int, Option<string>>` from `product_id` to
  `product_name`. Ids are therefore a key, and a name cell may be missing. A
  line whose product is absent, or whose catalogue name is missing, is
  dropped by the final `dropna`.
- The frequency floor is a parameter of `Filters.FrequencyFilter`.
  `Pipeline.RunPipeline` passes `MIN_PRODUCT_COUNT`.

Three facts about the code are worth stating, because its own comments
suggest more than it does:

- The comment at task1.py:77 says `drop_duplicates` removes the same
  product repeated in the same order. It runs on one chunk at a time, and
  the counter counts lines. So a pair repeated across a chunk boundary is
  kept twice and counted twice (`Streaming.DuplicateAcrossChunksKept`). An
  order whose one product is repeated that way passes the basket filter.
- The comment at task1.py:89 says a basket must have at least two items.
  The product-frequency filter runs after the basket filter and does not
  re-check basket sizes, so an order can end with a single line
  (`Filters.FrequencyFilterCanShrinkBasket`).
- Each cleaned chunk keeps the chunk's row order, each pair where it first
  appears (`Lines.CleanChunkOrder`), and the chunks are concatenated in
  file order. Unless some complete, eligible row occurs in two different
  chunks, the result equals cleaning the whole file at once, so it does
  not depend on the chunk size (`Streaming.ChunkingInvariant`).

## Model

| member | source | states |
|---|---|---|
| `Orders.DropNullKeys` | task1.py:42 | the rows kept are exactly the input rows having order_id, user_id and eval_set, every copy of them, in input order |
| `Orders.UniqueUsers` | task1.py:50 | the user list is duplicate-free, holds exactly the users that occur in the orders, and lists them in order of first appearance in the user_id column |
| `Orders.Choice` | task1.py:51 | drawing `size` entries without replacement gives exactly `size` entries; no pool entry is used more often than it occurs; the draw is duplicate-free when the pool is; drawing the whole pool gives a rearrangement of it |
| `Orders.SampleUsers` | task1.py:50-51 | the sample has `min(N_USERS, #users)` entries, all drawn from the users, and none repeated when the users are distinct; with at most `N_USERS` users it is a rearrangement of all of them, not an error |
| `Orders.RestrictUsers` | task1.py:53 | a row is kept exactly when its user is in the sample, every copy of it; the result is a subsequence of the input |
| `Orders.PriorOnly` | task1.py:56 | a row is kept exactly when its eval_set is "prior", every copy of it; the result is a subsequence of the input |
| `Orders.SelectCohort` | task1.py:42-58 | the sample is a duplicate-free subset of the cleaned orders' distinct users, of size `min(N_USERS, #users)`, and all of them when few; header rows have all three keys, a sampled user and eval_set "prior"; every copy of every input row with these properties is in the header, in input order; an order id is eligible exactly when such a row carries it |
| `Lines.DropNullLines` | task1.py:72 | a line is kept exactly when both order_id and product_id are present, every copy of it; the result is a subsequence of the chunk |
| `Lines.KeepOrders` | task1.py:75 | a line is kept exactly when its order id is in the given set (a set-membership test), every copy of it; the result is a subsequence |
| `Table.Dedup` | task1.py:78 | the result holds each element of the input exactly once, is a subsequence of it, and lists elements in order of first appearance |
| `Lines.CleanChunk` | task1.py:72-78 | every kept line is complete and eligible; a line is kept exactly when it is such a line of the chunk; no pair appears twice |
| `Lines.CleanChunkOrder` | task1.py:72-78 | the cleaned chunk is a subsequence of the chunk, and its rows appear in the order of their first occurrence in the chunk |
| `Counter.Update` | task1.py:81 | after `Counter.update(ids)` each key's count is its old count plus its occurrences in `ids`, and the keys are the old keys plus the ids |
| `Lines.OrderIds` | task1.py:81 | `chunk["order_id"].tolist()` has one entry per line, that line's order id, in table order |
| `Streaming.StreamChunks` | task1.py:67-85 | the loop returns the cleaned chunks concatenated in chunk order; for every order the running counter equals its number of lines in that table, and only orders with lines are keys |
| `Streaming.StreamedRows` | task1.py:72-85 | every row of the concatenated table is complete and eligible, and the table is a subsequence of the fact file |
| `Streaming.DuplicateInsideChunkCollapsed` | task1.py:77-78 | a pair repeated inside one chunk is kept once and counted once |
| `Streaming.DuplicateAcrossChunksKept` | task1.py:77-85 | the same pair in two different chunks is kept twice and its order is counted twice (duplicates are removed only within a chunk) |
| `Streaming.ChunkingInvariant` | task1.py:70-85 | unless a complete, eligible row occurs in two different chunks, the concatenated cleaned chunks do not depend on the chunking: they equal the whole file cleaned at once (rows repeated inside one chunk are allowed) |
| `Filters.ValidOrders` | task1.py:90 | an order is valid exactly when the counter reads at least 2 for it (inclusive) |
| `Filters.KeepHeaderOrders` | task1.py:93 | a header row is kept exactly when its order id is in the valid set, every copy of it; the result is a subsequence |
| `Filters.BasketLines` | task1.py:90-92 | with a counter that agrees with the line table, a line survives exactly when its order has at least 2 lines; surviving orders keep all their lines, the others drop to 0 |
| `Filters.BasketLockstep` | task1.py:90-93 | header and line tables cut by the same valid set end up with the same order-id set, namely the valid orders |
| `Filters.BasketFilter` | task1.py:90-93 | the filtered header and line tables hold the same orders, which are exactly the orders with at least 2 lines; every remaining line is complete and its order has at least 2 lines; surviving orders keep all their lines, and a header row is kept, every copy, exactly when its order has at least 2 lines; both results are subsequences of their inputs |
| `Counter.ValueCounts` | task1.py:101 | `value_counts` maps each value present to its number of occurrences; absent values are not keys |
| `Lines.ProductIds` | task1.py:101 | the product_id column has one entry per line, that line's product id, in table order |
| `Filters.ProductCounts` | task1.py:101 | the product counts agree with the number of lines of every product, and the counted products are exactly those with at least one line, as the index of `value_counts()` is |
| `Filters.FrequentProducts` | task1.py:102 | a product is kept exactly when it is counted and its count is at least the floor (inclusive) |
| `Filters.FrequentProductIff` | task1.py:101-102 | a product is frequent exactly when it has lines and at least the floor of them |
| `Filters.KeepProducts` | task1.py:104 | a line is kept exactly when its product is in the kept set, every copy of it; the result is a subsequence |
| `Filters.KeepProductsCount` | task1.py:104 | keeping whole products keeps each kept product's line count and zeroes the others |
| `Filters.FrequencyFilter` | task1.py:99-104 | a line survives exactly when its product has at least the floor of lines in the input; each product keeps all its lines or none; every remaining product still has at least the floor of lines |
| `Filters.FrequencyFilterCanShrinkBasket` | task1.py:99-104 | basket sizes are not re-checked: with floor 2, an order of two lines can end with one |
| `Enrichment.LeftJoinNames` | task1.py:110-114 | the left join keeps one row per input line, in order, with the same keys; a row has a name exactly when its product is in the catalogue with a name, and that name is the catalogue's `product_name` for the row's product id |
| `Enrichment.DropUnnamed` | task1.py:117 | a row is kept exactly when it has a product name, every copy of it, and the kept rows stay in input order |
| `Enrichment.Enrich` | task1.py:110-117 | every row has a name, and its product is in the catalogue under that name; dropping the names gives the input minus its unmatched lines, in the same order |
| `Enrichment.EnrichStrip` | task1.py:110-117 | join-then-drop, with the names forgotten, equals the mask of matched lines over the input |
| `Enrichment.MatchedLinesCount` | task1.py:110-117 | the enrichment drops whole products: a matched product keeps its line count and an unmatched one drops to 0 |
| `Pipeline.RunPipeline` | task1.py:42-117 | over the whole run: the cohort is the order loader's result for the given orders and draw; the streamed table is the fact file's chunks cleaned against the cohort's eligible orders and concatenated, and the counter agrees with it; the basket filter keeps, as subsequences, every copy of the header rows and all the lines of the orders with at least 2 lines, so both tables hold the same orders; the frequency filter keeps, as a subsequence, exactly the lines of products with at least `MIN_PRODUCT_COUNT` lines, with their counts; the final rows, names forgotten, are the frequent lines whose product has a catalogue name; every final row carries the catalogue's own name for its catalogued product, belongs to a remaining header order, and its product still has at least `MIN_PRODUCT_COUNT` lines; the header is a subsequence of the orders and the final lines of the fact file |

## Left out

- CSV reading, `usecols` and the declared dtypes (int32, int16, int8, category, float32) (task1.py:15-39, 63-64, 70). The integer widths have no effect on the filters, so ids are unbounded integers. With an integer dtype, pandas refuses a missing integer cell while reading. The model keeps the `dropna` paths anyway, because they are what the code does to whatever it reads.
- The chunk size and memory bounding (task1.py:66). Chunks are an arbitrary partition of the file.
- The numpy generator and its seed 42 (task1.py:48). The generator's output is the parameter `draws`. Determinism holds because every model function is a function of its inputs. The mapping from the seed to `draws`, and numpy's own selection algorithm, are not modelled.
- `days_since_prior_order` and the unused order columns. Three integer columns are carried in `OrderRow` and never read.
- `pd.set_option`, every `print` and every `.head()` (task1.py:5-6, 24-25, 44-45, 60-61, 87-88, 95-97, 106-108, 119-123).
- The aisles and departments tables (task1.py:21-22). They are loaded and never used.
- Row multiplication in the merge when `product_id` repeats in products.csv. The catalogue is a map, so product ids are a key.
- `.copy()`, `ignore_index=True` and the pandas index labels. They do not change which rows survive or their order.
