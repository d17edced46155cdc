# Gate.io trading dashboard — a Dafny model of its core

This project models the bookkeeping core of a small Gate.io spot-trading
dashboard. The dashboard is a Qt desktop window plus a few server-side
candlestick collectors. The model covers:

- **The market table.**
  - A ticker message is accepted, turned into a row `[time, pair, 24h %,
    price, volume]`, and upserted by pair (`WebsocketHandler`).
  - Tracked, subscribed and deleted pairs are kept apart.
  - The ticker widget keeps a pair-to-row map (`WebsocketWorker`).
  - The pandas-backed table models are `PandaMarketData` and
    `PandasHandler`. `PandaMarketData` includes the dictionary round trip
    of `import_data`.
- **The window's pair and balance bookkeeping:**
  - adding a normalised pair and its new market row;
  - replacing the account frame from a balance dict;
  - deleting selected rows (`MainWindow`, `DataHandler`, `Frames`).
- **Balance loading.**
  - Spot balances are parsed into `[asset, available, locked]` rows.
  - One loader keeps only rows worth showing (`available >= 1 or
    locked >= 1`).
  - Every failure path falls back to the placeholder row `["-", 0, 0]`
    (`Balances`, `ApiService`).
  - The REST client's rate limiter, ticker, order payload and account map
    are in `RestClient`.
- **The candlestick feeds.**
  - The subscribe frames, the message filter and the nine-field row
    (`Candles`).
  - The queueing feed with its batch consumer and capped exponential
    reconnect backoff (`WsGateio`).
  - The callback feed with a fixed five-second reconnect delay (`Gateio`).
  - The two server data handlers that store rows and add pairs
    (`ModulServer`, `ServerDataHandler`).
  - The Celery task that aggregates one-minute candles into a higher
    timeframe (`Tasks`).
- **The RSI scripts.**
  - The minute-gated close-price windows of the indicator feed
    (`Taliban`).
  - The interval and pair choices of the RSI calculator GUI
    (`RsiCalculatorGui`).

Shared vocabulary:

- `Common`: Option/Result, JSON values and dataframe cells, and the
  shared, mutable list of pairs.
- `Text`: Python's `split`, `join`, `strip`, `upper`, `int()`/`float()`
  on decimal text, and `sorted(set(...))`.
- `Dicts`: Python's insertion-ordered `dict`.

State that the source updates in place is modelled as classes with
`modifies` clauses. Examples are a dataframe dropped `inplace`, a Qt model
whose frame is swapped, and a socket client with its pairs and sent
frames. Pure computations are functions, and each is tied by lemmas to
what the source promises.

Clocks, environment variables, SDK replies, socket readiness and fetch
outcomes are parameters.

Two behaviours of the code that a reader might not expect are modelled
as written:

- **Importing market data renames and reorders.** The first successful
  `import_data` puts the pair into a new first column named `index`
  (`FirstImportKeepsOrder`). The next one finds `index` taken and names
  the new column `level_0` (`SecondImport`). After that both names are
  taken, so an import that keeps an old row raises inside the `try` and
  is swallowed, and the frame stays as it was (`ReimportFails`). Rows are
  rebuilt column by column, so an old pair that lacks the first new
  column moves below the imported ones (`ImportReorders`).
- **The callback feed does not filter on the window flag.** The feed of
  `server/gateio.py` hands on every candlestick update, closed window or
  not (`NoWindowFilter`). The queueing feed of `server/ws_gateio.py`
  forwards only closed windows (`Forwarded`).

## Model

| member | source | states |
|---|---|---|
| WebsocketHandler.Accept | control/websocket_handler.py:46-66 | a ticker frame gives a market row exactly when it has a truthy text pair not marked deleted and a time; the row carries that pair and time, and change, last and volume default to 0.0 |
| WebsocketHandler.FindPair | control/websocket_handler.py:69-72 | the index found is the first row with that pair; none means no row has it |
| WebsocketHandler.UpsertShape | control/websocket_handler.py:69-74 | an existing pair's row is overwritten in place with nothing else moved; a new pair is appended |
| WebsocketHandler.LookupUpsert | control/websocket_handler.py:69-74 | after an upsert, the upserted pair looks up the new row and every other pair looks up what it did before |
| WebsocketHandler.FindPairFirst | control/websocket_handler.py:69-72 | the first row carrying a pair is the one the upsert finds |
| WebsocketHandler.UpsertKeepsUnique | control/websocket_handler.py:69-74 | upserting keeps at most one row per pair |
| WebsocketHandler.WithoutMembers | control/websocket_handler.py:130-131 | filtering out a pair keeps exactly the rows of other pairs and never grows the table |
| WebsocketHandler.LookupWithout | control/websocket_handler.py:130-131 | after removing a pair it looks up nothing, and other pairs are unaffected |
| WebsocketHandler.LookupCons | control/websocket_handler.py:69-74 | lookup finds the first row with the pair |
| WebsocketHandler.WithoutKeepsUnique | control/websocket_handler.py:130-131 | removing a pair keeps at most one row per pair |
| WebsocketHandler.WithoutAllSpec | control/websocket_handler.py:134-138 | after deleting selected pairs none of them has a row, others look up as before, and uniqueness is kept |
| WebsocketHandler.WebSocketHandler.constructor | control/websocket_handler.py:11-22 | starts with no market rows, no pairs and no deleted pairs |
| WebsocketHandler.WebSocketHandler.ProcessMessage | control/websocket_handler.py:42-82 | an accepted frame is upserted and the table published; a rejected frame changes nothing; pair sets never change |
| WebsocketHandler.WebSocketHandler.AddPair | control/websocket_handler.py:84-113 | an empty, known or invalid pair is refused with nothing changed; otherwise it is tracked, undeleted and subscribed, and reported added unless the subscribe raised |
| WebsocketHandler.WebSocketHandler.RemovePair | control/websocket_handler.py:115-126 | a tracked pair moves to the deleted set and is unsubscribed; an untracked one changes nothing |
| WebsocketHandler.WebSocketHandler.RemovePairFromMarketData | control/websocket_handler.py:128-132 | the pair's rows are removed and the table published |
| WebsocketHandler.WebSocketHandler.DeleteSelectedRows | control/websocket_handler.py:134-138 | every selected pair loses its rows and its tracking, and tracked ones are marked deleted |
| WebsocketWorker.SetPrice | control/websocket_worker.py:51-54 | writing price and change into a row past the end grows the table with empty rows; other rows are untouched |
| WebsocketWorker.ForwardedFrameShown | control/websocket_worker.py:21-30 | a message the worker forwards ends up as its pair's row showing that pair, last price and change |
| WebsocketWorker.MissingKeyIsNoop | control/websocket_worker.py:44-46 | a ticker missing one of the three keys leaves the table and its map unchanged |
| WebsocketWorker.KnownPairUpdate | control/websocket_worker.py:51-54 | a known pair's row gets the new last and change, and no other row or mapping changes |
| WebsocketWorker.UnknownPairAppends | control/websocket_worker.py:55-61 | an unknown pair gets a new last row and is mapped to it |
| WebsocketWorker.ApplyKeepsConsistent | control/websocket_worker.py:41-63 | every mapped pair keeps pointing at a row that shows that pair |
| WebsocketWorker.TickerTableUpdater.constructor | control/websocket_worker.py:37-39 | holds the given table and row map |
| WebsocketWorker.TickerTableUpdater.UpdateTickerTable | control/websocket_worker.py:41-63 | the table and map become the update of the old ones and stay consistent |
| PandaMarketData.ColumnIndex | models/panda_market_data.py:79 | finds the PAIR column, or reports it missing |
| PandaMarketData.Pad | models/panda_market_data.py:11-12 | a short row is filled with missing values up to the five headers |
| PandaMarketData.FromRows | models/panda_market_data.py:11-12 | the frame built from rows has the five headers and one rectangular row per input row |
| PandaMarketData.Records | models/panda_market_data.py:79 | indexing by PAIR succeeds exactly when pairs are distinct and then gives one record per row |
| PandaMarketData.LastWithPair | models/panda_market_data.py:81-83 | finds the last imported row for a pair, or proves there is none |
| PandaMarketData.Merge | models/panda_market_data.py:81-83 | merging raises exactly when some imported row has no pair field |
| PandaMarketData.MergeAllStep | models/panda_market_data.py:81-83 | importing one more row writes that row's record over its pair |
| PandaMarketData.MergeLookup | models/panda_market_data.py:81-83 | after the merge a pair maps to its last imported row, or to its old record if never imported |
| PandaMarketData.MergeKeys | models/panda_market_data.py:81-83 | the merged dict keeps the old pairs first, in order, with no duplicates |
| PandaMarketData.MergeKeysMember | models/panda_market_data.py:81-83 | a pair is a key after merging exactly when it was before or some imported row names it |
| PandaMarketData.NamedSnoc | models/panda_market_data.py:81-83 | a pair named in the imported rows is named in all but the last or in the last |
| PandaMarketData.UnionMember | models/panda_market_data.py:85 | the column union holds exactly the columns of either input, each once |
| PandaMarketData.ColumnUnionMember | models/panda_market_data.py:85 | the frame's columns are exactly the fields some record has, each once |
| PandaMarketData.HoldersMember | models/panda_market_data.py:85 | a column's row labels are exactly the keys of the records holding it |
| PandaMarketData.RowKeysMember | models/panda_market_data.py:85 | the rebuilt rows are labelled exactly by the keys whose record holds some column, each once |
| PandaMarketData.RowKeysInDictOrder | models/panda_market_data.py:85 | when every record holds the first column, the rows follow the dict's order |
| PandaMarketData.KeyName | models/panda_market_data.py:85 | the key column is `index`, or `level_0` when `index` is a column, and that name is taken only when both are |
| PandaMarketData.RowOf | models/panda_market_data.py:85 | a record becomes a row with its key first and each column's value, or missing |
| PandaMarketData.FromDict | models/panda_market_data.py:85 | rebuilding fails exactly when the fields hold both `index` and `level_0`; otherwise the key column comes first, then the fields in first-appearance order, and each row is its key and its record's values, or missing |
| PandaMarketData.FromDictRows | models/panda_market_data.py:85 | one row per key whose record has a field, each key once; in dict order when every record holds the first column |
| PandaMarketData.PairColumn | models/panda_market_data.py:79 | the PAIR value of each row, in order |
| PandaMarketData.KeyColumn | models/panda_market_data.py:85 | the first column of each row, in order |
| PandaMarketData.ImportSteps | models/panda_market_data.py:77-85 | a successful import had a PAIR column, paired imported rows, distinct pairs, and is the rebuild of the merged dict |
| PandaMarketData.ImportDictKeys | models/panda_market_data.py:79-83 | the merged dict's keys are the old pairs in order followed by the new ones, without duplicates |
| PandaMarketData.ImportPairs | models/panda_market_data.py:77-85 | after an import each pair has one row, and a pair has a row exactly when it is an old or imported pair whose merged record has a field |
| PandaMarketData.ImportKeepsAllPairs | models/panda_market_data.py:77-85 | with a non-empty header list and an old column besides PAIR, every old and imported pair keeps a row |
| PandaMarketData.ImportKeepsOrder | models/panda_market_data.py:77-85 | when every merged record holds the first new column, the old pairs keep the first rows in their old order |
| PandaMarketData.FirstImportKeepsOrder | models/panda_market_data.py:77-85 | importing with the five headers into a frame with the five headers keeps the old pairs first, in order, under a key column `index` followed by TIME |
| PandaMarketData.ImportReorders | models/panda_market_data.py:77-85 | importing a TIME-only row into a frame keyed by `index` moves the imported pair below the old ones and names the key column `level_0` |
| PandaMarketData.FieldsOfMerged | models/panda_market_data.py:79-83 | every field of a merged record is an old column or an import header |
| PandaMarketData.SurvivorFields | models/panda_market_data.py:79-85 | an old row whose pair is not imported brings every old column but PAIR into the new frame |
| PandaMarketData.SecondImport | models/panda_market_data.py:77-85 | with distinct old pairs, paired imported rows and no `level_0` column in the frame or the headers, an import succeeds; it names its key column `level_0` when `index` is an old column and an old row survives |
| PandaMarketData.OldRow | models/panda_market_data.py:79 | the old row of a pair has one cell per column |
| PandaMarketData.OldRowAt | models/panda_market_data.py:79 | with distinct pairs, the old row of a row's pair is that row |
| PandaMarketData.ImportValues | models/panda_market_data.py:77-85 | each imported cell is the last imported value for its pair and column, else the old value, else missing |
| PandaMarketData.ImportDictLookup | models/panda_market_data.py:79-83 | a pair's merged record is its old record overwritten by its last imported row |
| PandaMarketData.ReimportFails | models/panda_market_data.py:77-90 | once the frame has both `index` and `level_0` columns, an import that keeps an old row raises |
| PandaMarketData.PandaMarketData.constructor | models/panda_market_data.py:9-12 | the frame is the rows under the five headers, empty when no rows are given |
| PandaMarketData.PandaMarketData.RowCount | models/panda_market_data.py:62-63 | the number of rows |
| PandaMarketData.PandaMarketData.ColumnCount | models/panda_market_data.py:65-66 | always five |
| PandaMarketData.PandaMarketData.GetData | models/panda_market_data.py:92-95 | the cell at an in-range position, none outside the table |
| PandaMarketData.PandaMarketData.UpdateData | models/panda_market_data.py:54-60 | well-shaped rows replace the frame; rows pandas refuses leave it |
| PandaMarketData.PandaMarketData.ImportData | models/panda_market_data.py:77-90 | a successful import replaces the frame with the rebuilt one; any failure leaves it unchanged |
| DataHandler.AddPair | control/data_handler.py:58-66 | an empty or known pair changes nothing; otherwise it is appended and a new market row added, raising when the frame is not five columns wide (the copy at control/data_handler_bkp.py:100-117 is the same) |
| DataHandler.AddPairKeepsDistinct | control/data_handler_bkp.py:110-117 | appending an absent non-empty pair keeps the pair list distinct |
| DataHandler.UpdateMarketDataWithNewPairs | control/data_handler.py:68-75 | a fresh market frame with one new-pair row per pair, in order (control/data_handler_bkp.py:119-134 is the same) |
| DataHandler.UpdateBalance | control/data_handler.py:46-56 | an error dict leaves the frame, raising when it lacks 'message'; any other dict gives the balance rows (control/data_handler_bkp.py:80-98 is the same) |
| Frames.KeptPositions | control/data_handler.py:114-116 | the positions that survive a drop: all of them and only them, increasing |
| Frames.RemoveAt | control/data_handler.py:114-116 | dropping positions keeps the other rows in their order |
| Frames.KeptAfterFirstTwo | control/pandas_handler.py:62-65 | dropping positions 0 and 1 keeps positions 2 onwards |
| Frames.RemoveFirstTwo | control/pandas_handler.py:62-65 | dropping rows 0 and 1 leaves the tail from 2 |
| Frames.DropLabels | control/pandas_handler.py:107-115 | dropping labels fails exactly when a label is out of range; otherwise it removes exactly those rows |
| Frames.NewPairRow | main_window.py:150 | the new row has five cells with the pair second |
| Frames.BalanceRows | control/data_handler.py:46-56 | an 'error' key leaves the frame (KeyError without 'message'); otherwise one `[currency, available]` row per entry in dict order |
| Frames.Frame.constructor | control/data_handler.py:62-64 | a frame holding the given columns and rows |
| Frames.Frame.DropPositions | control/data_handler.py:111-133 | an in-range selection (negatives counting from the end) drops exactly those rows; an out-of-range one raises with nothing dropped |
| PandasHandler.RowRange | control/pandas_handler.py:56 | `range(row, row + count)`, empty for a non-positive count |
| PandasHandler.FirstTwoPositions | control/pandas_handler.py:62-64 | positions 0 and 1 are valid in a table of two or more rows |
| PandasHandler.PandasModel.constructor | control/pandas_handler.py:9-11 | wraps the given frame |
| PandasHandler.PandasModel.RowCount | control/pandas_handler.py:13-14 | the frame's row count |
| PandasHandler.PandasModel.ColumnCount | control/pandas_handler.py:16-17 | the frame's column count |
| PandasHandler.PandasModel.DisplayData | control/pandas_handler.py:19-30 | a missing value shows as empty text, any other value as its text |
| PandasHandler.PandasModel.UpdateData | control/pandas_handler.py:48-52 | the model now wraps the new frame |
| PandasHandler.PandasModel.RemoveRows | control/pandas_handler.py:54-60 | the row range is dropped from the wrapped frame in place, or the call raises and nothing is dropped |
| PandasHandler.PandasModel.RemoveFirstTwoRows | control/pandas_handler.py:62-65 | with more than one row the first two go; otherwise nothing changes |
| PandasHandler.DeleteRows | control/pandas_handler.py:107-115 | with the frame handed to the proxy's source model: a fresh frame without the labelled rows is shown, or a bad label raises and the model is unchanged |
| PandasHandler.DeleteRowsAsWritten | control/pandas_handler.py:107-115 | as written, a bad label raises KeyError and any other call raises AttributeError on the proxy, so no frame is ever returned |
| PandasHandler.SortFilterProxy.constructor | control/pandas_handler.py:96-97 | the proxy holds the model it was given as its source |
| PandasHandler.InitMarketDataModel | control/pandas_handler.py:94-98 | an empty market frame and a fresh proxy over a fresh model showing it |
| PandasHandler.InitAccountDataModel | control/pandas_handler.py:100-104 | an empty four-column account frame and a fresh proxy over a fresh model showing it |
| MainWindow.NormalizePairSpec | main_window.py:147 | the normalised input has no surrounding whitespace or lower-case letter, and normalising again changes nothing |
| MainWindow.UpperCharSpec | main_window.py:147 | upper-casing a character leaves no lower-case letter, is idempotent and keeps whitespace |
| MainWindow.UpperIdempotent | main_window.py:147 | upper-cased text has no lower-case letter and upper-casing again changes nothing |
| MainWindow.MainWindow.constructor | main_window.py:66-119 | starts with the ten default pairs, an empty market frame and an empty account frame |
| MainWindow.MainWindow.AddPair | main_window.py:146-155 | a new normalised pair is appended with its market row and the box cleared; an empty or known one changes nothing |
| MainWindow.MainWindow.AddNormalized | main_window.py:148-155 | for an already normalised pair: appended with its market row and the box cleared when new and non-empty, raising after the append when the market frame lacks five columns; otherwise nothing changes |
| MainWindow.MainWindow.UpdateBalance | main_window.py:135-144 | the account frame is replaced by the balance rows, or kept on an error payload |
| Candles.SubscribeFrames | server/ws_gateio.py:108-117 | one `spot.candlesticks` subscribe frame per pair, in order, with interval and pair as payload |
| Candles.SubscribeFramesStep | server/ws_gateio.py:110-116 | subscribing pair by pair adds one frame per step |
| Candles.ToFloat | server/ws_gateio.py:76-77 | numbers convert to themselves, booleans to 0 or 1, and None or containers fail |
| Candles.LocalTime | server/ws_gateio.py:74-83 | None and unconvertible values give no timestamp; numbers give themselves |
| Candles.LocalTimeOfText | server/modul_server.py:35-45 | an epoch sent as decimal text converts to that number of seconds |
| Candles.InsertRow | server/modul_server.py:56-71 | a row is stored exactly when the timestamp converts, with the given window flag last |
| WsGateio.DatabaseHandler.constructor | server/ws_gateio.py:16-18 | an empty queue and nothing inserted |
| WsGateio.DatabaseHandler.EnqueueData | server/ws_gateio.py:61-62 | the row joins the back of the queue |
| WsGateio.DatabaseHandler.DrainOnce | server/ws_gateio.py:34-43 | the queue is emptied into one batch, in order, inserted only when non-empty |
| WsGateio.Forwarded | server/ws_gateio.py:85-106 | a row is forwarded exactly for a result with `n` and a truthy window flag, and it carries that flag and name |
| WsGateio.GateIOWebSocket.constructor | server/ws_gateio.py:66-72 | holds the callback, pairs and interval, with no socket |
| WsGateio.GateIOWebSocket.OnMessage | server/ws_gateio.py:85-106 | a closed window is enqueued on the callback's queue; anything else changes nothing |
| WsGateio.GateIOWebSocket.Subscribe | server/ws_gateio.py:108-117 | with a socket, one frame per pair is sent; without one the call raises and sends nothing |
| WsGateio.Create | server/ws_gateio.py:66-72 | None or an empty pair list raises ValueError; otherwise a fresh feed |
| WsGateio.NewDataHandler | server/ws_gateio.py:140-146 | a fresh handler and a BTC_USDT/ETH_USDT one-minute feed enqueueing into it |
| WsGateio.Run | server/ws_gateio.py:119-137 | the delays slept and the final backoff are those of the reconnect schedule |
| WsGateio.BackoffBounded | server/ws_gateio.py:121-137 | the backoff is always a power of two from 1 to 32 |
| WsGateio.DelaysBounded | server/ws_gateio.py:129-137 | every delay is between 1 and 32 seconds |
| WsGateio.DelayCount | server/ws_gateio.py:119-137 | one delay per failed session, none after a clean close |
| WsGateio.FailuresDouble | server/ws_gateio.py:134-137 | k failures before subscribing multiply the backoff by 2^k, capped at 32 |
| WsGateio.ResetAfterSubscribe | server/ws_gateio.py:129 | a session that subscribed resets the backoff, so the next failure waits 1 second |
| Gateio.Extract | server/gateio.py:21-33 | the record has exactly the nine keys, each copied from the result or None |
| Gateio.GateIOWebSocket.constructor | server/gateio.py:10-16 | holds the shared pair list, interval and callback, with no socket |
| Gateio.GateIOWebSocket.OnMessage | server/gateio.py:18-40 | a result with `n` is handed to a callable callback as its record; anything else changes nothing |
| Gateio.GateIOWebSocket.Subscribe | server/gateio.py:42-51 | with a socket, one frame per pair of the shared list; without one it raises when there is a pair to send |
| Gateio.GateIOWebSocket.SendSubscribe | server/modul_server.py:90-100 | a subscribe frame for the new pair is sent only while a socket is held |
| Gateio.NoWindowFilter | server/gateio.py:21-38 | whether a result is handed on does not depend on its window flag, which is copied as it came |
| Gateio.Create | server/gateio.py:10-16 | None or an empty pair list raises ValueError; otherwise a fresh feed |
| Gateio.Run | server/gateio.py:53-65 | the pauses slept are those of the fixed schedule |
| Gateio.FixedDelaysSpec | server/gateio.py:53-65 | one five-second pause per failed session |
| ModulServer.DataHandler.constructor | server/modul_server.py:13-18 | a fresh BTC_USDT pair list, no feed, nothing stored |
| ModulServer.DataHandler.InsertDataToDb | server/modul_server.py:47-77 | a row with a convertible timestamp is stored with the data's own window flag; otherwise nothing is stored |
| ModulServer.DataHandler.StartWebsocket | server/modul_server.py:79-84 | an empty pair list raises; otherwise a fresh one-minute feed sharing the pair list |
| ModulServer.DataHandler.AddPair | server/modul_server.py:86-102 | a new pair is appended and, with an open socket, subscribed; a known one changes nothing |
| ModulServer.SameRowAsQueueingFeed | server/modul_server.py:61-71 | for a closed window, the row stored from the callback's record equals the one the queueing feed forwards |
| ServerDataHandler.DataHandler.constructor | server/data_handler.py:13-18 | a fresh BTC_USDT/ETH_USDT pair list, no feed, nothing stored |
| ServerDataHandler.DataHandler.InsertDataToDb | server/data_handler.py:45-72 | a row with a convertible timestamp is stored with the caller's window flag; otherwise nothing is stored |
| ServerDataHandler.DataHandler.StartWebsocket | server/data_handler.py:74-82 | with pairs, a fresh one-minute feed sharing the pair list; otherwise nothing changes |
| ServerDataHandler.DataHandler.AddPair | server/data_handler.py:84-97 | a new pair is appended and, with an open socket, subscribed; a known one changes nothing |
| ServerDataHandler.AddPairsDistinct | server/data_handler.py:84-97 | repeated adds keep the pair list distinct and holding exactly the start and added pairs |
| Tasks.MaxOf | server/tasks.py:33 | the maximum is an element and bounds every element |
| Tasks.MinOf | server/tasks.py:34 | the minimum is an element and is bounded by every element |
| Tasks.AggregateSpec | server/tasks.py:29-49 | empty data fails; otherwise open is first, close last, low and high bound every value, volume is the sum and the name is timeframe then pair |
| Tasks.FactorOf | server/tasks.py:16 | the factor of a timeframe is the number before its unit letter |
| Tasks.CreateHigherTimeframeSpec | server/tasks.py:11-27 | exactly `factor` values store one aggregated candle with the window flag set; another count stores nothing; failures retry |
| Tasks.StoredRow | server/tasks.py:22 | the aggregated candle is stored field for field with the window flag set |
| Balances.ParsedRows | api/api_get_balances.py:78-85 | every balance parses to its row in order, or some balance fails to parse |
| Balances.Filter | loaders/balances_loader.py:29-35 | keeps exactly the rows with an amount of at least 1, in order |
| Balances.ThresholdTable | loaders/balances_loader.py:9-45 | the shown table is never empty |
| Balances.BalanceTable | api/api_get_balances.py:72-90 | the shown table is never empty |
| Balances.KeptPositions | loaders/balances_loader.py:29-35 | the kept positions increase and each holds a row worth showing |
| Balances.KeptPositionsFilter | loaders/balances_loader.py:29-35 | row i of the filtered table is the row at the i-th kept position |
| Balances.KeptPositionsComplete | loaders/balances_loader.py:29-35 | every position of a row worth showing is among the kept positions, so a row kept twice is shown twice |
| Balances.FilterIsSubsequence | loaders/balances_loader.py:29-35 | the filtered rows are the parsed ones at every position worth showing, in order, so duplicates are kept |
| Balances.ThresholdTableSpec | loaders/balances_loader.py:9-45 | a failure or nothing worth showing gives the placeholder; otherwise the parsed rows at every position worth showing, in order |
| Balances.BalanceTableSpec | api/api_service_backup.py:110-120 | a parsable non-empty spot list gives one row per balance, in order |
| Balances.BalanceTablePlaceholder | api/api_service_backup.py:110-128 | a missing spot list, an empty one or a parse failure gives the placeholder |
| Balances.LoadBalances | loaders/balances_loader.py:9-45 | the loop builds the threshold table |
| Balances.ParsedRowsStep | loaders/balances_loader.py:29-35 | parsing one more balance extends the rows and the kept rows by it |
| Balances.ParsedPrefixFails | loaders/balances_loader.py:29-33 | once a balance fails to parse the whole load fails |
| Balances.ApiHandler.constructor | control/api_handler.py:10-12 | holds the threshold table of the fetched balances |
| Balances.ApiHandler.RowCount | control/api_handler.py:45-46 | the number of rows, at least one |
| Balances.ApiHandler.ColumnCount | control/api_handler.py:48-49 | zero for no rows, three for a loaded table |
| Balances.ApiHandler.HeaderData | control/api_handler.py:51-57 | horizontal headers by Python index (raising outside), vertical ones as row number + 1, nothing outside the display role |
| Balances.ApiHandlerValid | control/api_handler.py:14-36 | the loaded table is non-empty and shows only the placeholder or rows worth showing |
| ApiService.GetApiCredentials | api/api_get_balances.py:12-21 | a missing or empty key or secret raises |
| ApiService.CredentialsReturned | api/api_service_backup.py:13-18 | present key and secret are returned as given; a missing one raises |
| ApiService.CheckRateLimit | api/api_get_balances.py:51-63 | unreadable headers raise; otherwise the limit is near exactly when remaining is under a tenth of the threshold |
| ApiService.CheckRateLimitThresholds | api/api_service_backup.py:96-104 | private calls are near the limit only at 0 remaining, others below 10; a missing header counts as 0 |
| ApiService.History | api/api_service_backup.py:130-163 | `get_order_history` (130-135) and `get_trade_history` (158-163) give the call's list when it succeeded, and `[]` when it raised |
| ApiService.CancelOrder | api/api_service_backup.py:137-142 | the call's reply when it succeeded, and `{"error": "Gagal membatalkan order"}` exactly when it raised |
| ApiService.PlaceOrder | api/api_service_backup.py:144-149 | the call's order when it succeeded, and `{"error": "Gagal membuat order"}` exactly when it raised |
| ApiService.OrderStatus | api/api_service_backup.py:151-156 | the call's status when it succeeded, and `{}` when it raised |
| RestClient.StepAsWrittenCounts | api/api_gateio_bkp.py:56-62 | as written, each request either adds one to the count or restarts it at one |
| RestClient.AsWrittenExceedsLimit | api/api_gateio_bkp.py:56-62 | as written, two requests after the first second both pass with limit 1 |
| RestClient.Step | api/api_gateio_bkp.py:56-62 | a request a second or more after the window start opens a new window counting one |
| RestClient.StepKeepsLimit | api/api_gateio_bkp.py:56-62 | with the window rolled, one request never takes the count past the limit |
| RestClient.RunKeepsLimit | api/api_gateio_bkp.py:48-62 | any sequence of requests keeps the count within the limit |
| RestClient.IntendedHoldsLimit | api/api_gateio_bkp.py:56-62 | with the window rolled, the two requests of the finding count one each |
| RestClient.KeyOr | api/api_gateio_bkp.py:25-26 | a given non-empty key wins, otherwise the environment's |
| RestClient.GateioAPI.constructor | api/api_gateio_bkp.py:17-33 | keys from the arguments or environment, the given rate limit or 10, zero requests, window starting now |
| RestClient.GateioAPI.RateLimitedFetch | api/api_gateio_bkp.py:48-65 | the throttle moves by one request and stays within the limit |
| RestClient.TickerInfo | api/api_gateio_bkp.py:67-83 | the first ticker, or {} for an empty reply or an error |
| RestClient.CreateOrderPayload | api/api_gateio_bkp.py:149-155 | a limit order with exactly the five fields, as given |
| RestClient.AvailableByCurrency | api/api_gateio_bkp.py:92-93 | one entry per listed currency |
| RestClient.LastListingWins | api/api_gateio_bkp.py:92-93 | a currency maps to its last listing's available amount |
| RestClient.GetAccountBalance | api/api_gateio_bkp.py:85-96 | an error gives {}; otherwise one entry per listed currency |
| RsiCalculatorGui.FetchIntervalsAndPairs | teknik/rsi_calculator_gui.py:49-58 | no data gives empty choices; a name without a pair raises when another name has one, and gives the single NaN pair when none has; otherwise strictly sorted intervals and pairs, exactly those of the names |
| RsiCalculatorGui.ChoicesDistinct | teknik/rsi_calculator_gui.py:53-54 | each choice appears once |
| RsiCalculatorGui.NameRoundTrip | teknik/rsi_calculator_gui.py:127 | the interval and pair read back from a subscription name are those it was built from |
| RsiCalculatorGui.CloseValuesSpec | teknik/rsi_calculator_gui.py:93 | the close column converts exactly when every value is a number, each to its value |
| RsiCalculatorGui.CalculateIndicators | teknik/rsi_calculator_gui.py:92-112 | a close that is not a number raises; otherwise fewer rows than the length give nothing and enough rows the averages' result |
| Taliban.PairOfJoinedName | teknik/taliban.py:47 | the pair read back from `interval_pair` is the pair |
| Taliban.GateAsWrittenForgetsDays | teknik/taliban.py:52 | as written, an update a day and thirty seconds later is skipped |
| Taliban.GateSpec | teknik/taliban.py:52 | the minute gate opens exactly 60 seconds or more after the last update |
| Taliban.Append | teknik/taliban.py:54 | appending to a bounded deque keeps at most `length` values with the new one last |
| Taliban.Window | teknik/taliban.py:28 | the deque never holds more than its bound |
| Taliban.AppendWindow | teknik/taliban.py:54 | appending to a window is the window of the extended stream |
| Taliban.AppendAll | teknik/taliban.py:28-54 | feeding a stream into an empty deque keeps its last `length` values |
| Taliban.ReceiveSpec | teknik/taliban.py:30-88 | buffers stay bounded and keyed by the pairs; a changed buffer or an accepted close passed the gate, moved the timer and was appended to the buffer of the pair the message names, and no other; a skip changes no buffer; a raise changes one only for a full window shorter than two |
| Taliban.SharedTimer | teknik/taliban.py:52-53 | one timer serves all pairs, so any candle within the next 30 seconds is skipped |
| Taliban.UntrackedPairMovesTimer | teknik/taliban.py:52-54 | an untracked pair moves the timer before it raises |
| Taliban.GateIOWebSocket.constructor | teknik/taliban.py:19-28 | the pairs default to BTC_USDT, with one empty buffer per pair and no timer |
| Taliban.GateIOWebSocket.OnMessage | teknik/taliban.py:30-88 | the feed state moves as one reception does, and the indicators are computed exactly when a window of two or more is full |
| Taliban.GateIOWebSocket.Subscribe | teknik/taliban.py:90-97 | with a socket the first pair is subscribed; without one, or with no pairs, the call raises |
| Text.Split | teknik/rsi_calculator_gui.py:53-54 | fields hold no separator and joining them rebuilds the text |
| Text.JoinSplit | teknik/taliban.py:47 | joining the split fields gives back the text |
| Text.SplitJoin | teknik/rsi_calculator_gui.py:53-54 | splitting fields joined with a separator gives back the fields |
| Text.DropFirstFieldIsSuffix | teknik/taliban.py:47 | joining all fields but the first gives the text after the first separator |
| Text.ParseShowInt | server/tasks.py:16 | `int()` reads back a number's decimal text |
| Text.ParseFloatShowInt | server/ws_gateio.py:76-77 | `float()` reads back a whole number's decimal text |
| Text.StripSpec | main_window.py:147 | stripping removes exactly the leading and trailing whitespace |
| Text.StripEnds | main_window.py:147 | stripped text neither starts nor ends with whitespace |
| Text.StripNoop | main_window.py:147 | stripping text without surrounding whitespace changes nothing |
| Text.Upper | main_window.py:147 | upper-casing keeps the length and maps each character |
| Text.InsertSorted | teknik/rsi_calculator_gui.py:53-54 | inserting into a sorted set list keeps it sorted and holding exactly the old elements and the new one |
| Text.SortedDistinct | teknik/rsi_calculator_gui.py:53-54 | `sorted(set(...))` is strictly sorted and holds exactly the input's elements |
| Text.StrictlySortedDistinct | teknik/rsi_calculator_gui.py:53-54 | a strictly sorted list has no duplicates |
| Dicts.LookupPut | models/panda_market_data.py:83 | after assigning a key, it maps to the new value and other keys are unaffected |
| Dicts.KeysPut | models/panda_market_data.py:83 | assigning a new key appends it to the keys; an existing key keeps its place |
| Dicts.PutKeepsDistinct | models/panda_market_data.py:83 | assignment keeps keys distinct |
| Dicts.FromItems | models/panda_market_data.py:83 | `dict(zip(...))`: later duplicates overwrite earlier ones, keys are distinct |
| Dicts.Zip | models/panda_market_data.py:83 | `zip` pairs elements up to the shorter length |
| Dicts.KeysFromItems | models/panda_market_data.py:83 | the dict's keys are exactly the distinct zipped keys |

## Left out

- Qt rendering, signals, sorting and filtering (`lessThan` and `filterAcceptsRow` of `CustomSortFilterProxyModel`, `headerData` of control/pandas_handler.py, layout signals) are left out. Only the data the models hold and answer with is modelled; the proxy only holds its source model.
- PandasHandler.PandasModel.DisplayData: the VOLUME column's `:.2f` formatting and `round(value, 2)` in control/api_handler.py `data` are not modelled, since cells are kept as text and floating point formatting is out of scope; DisplayData requires a non-VOLUME column for that reason.
- Network, database, Celery transport, threads and asyncio scheduling are left out. Socket readiness, fetch results, SDK replies and clock readings are parameters. Database inserts are the rows appended to a sequence.
- The random jitter of server/ws_gateio.py's backoff is not part of this model. Delays are stated before jitter.
- Times are epoch seconds or timestamp text. `strftime`, time zones and `pd.Timestamp` formatting are not modelled.
- `int()` and `float()` are modelled on plain decimal text only. Surrounding whitespace, underscores, exponents, `inf`/`nan` and float rounding are not.
- `upper()` is modelled on ASCII letters only. Unicode case mapping is not.
- TA-Lib's SMA/EMA/WMA/RSI values are a parameter of `CalculateIndicators`, since they are foreign code. `Taliban.GateIOWebSocket.OnMessage` reports only whether they were computed. The one TA-Lib failure modelled is a period shorter than 2.
- `fetch_candlestick_data`, which server/tasks.py calls on server/data_handler.py, does not exist in that file. Its result is a parameter.
- ServerDataHandler.DataHandler.StartWebsocket: the `gateio_ws` feed that server/data_handler.py imports is not part of this model. The feed of server/gateio.py, which has the same attributes, stands in for it, here and in `ServerDataHandler.DataHandler.AddPair`.
- The `gateio_ws` module that control/websocket_handler.py uses is not part of this model. Its subscribe and unsubscribe calls are recorded as requests, and a raising subscribe is a parameter.
- Celery's `max_retries` and retry countdown are reduced to the outcome `Retry`.
- pandas NaN is modelled only where the RSI GUI meets it: `FetchIntervalsAndPairs` gives the single NaN pair when no name has a pair, and fails when NaN is sorted with text pairs (TypeError). Elsewhere missing cells are `Null`.
- Dataframe index labels are modelled as the positions 0..n-1 that `reset_index(drop=True)` keeps them at.
- PandaMarketData.PandaMarketData.constructor requires the shape pandas accepts: rows of at most five cells, and one of exactly five when there are rows. The source raises ValueError on wider rows and on rows that are all shorter ("5 columns passed, passed data had N columns"); that raise is not modelled.
- Taliban.GateIOWebSocket.OnMessage: the window length is a natural number, the clock is whole seconds, and a `result` that is not a dict is treated like a missing one.
- The `run` loops of teknik/taliban.py and of `start_websocket` in server/modul_server.py and server/data_handler.py are modelled up to creating the feed and subscribing. The endless receive loop is not modelled.
- `DataHandler` of server/ws_gateio.py is modelled up to wiring the feed to the database handler. `start` (gathering the two coroutines) is not modelled.
- The loader of loaders/balances_loader.py iterates a non-list `spot` value anyway. The model reduces that case to the placeholder, which is what its `except` returns when iterating fails.
- Candles.LocalTime: the range of `datetime.fromtimestamp` is not modelled, since it depends on the platform's `time_t` and the local time zone. An epoch outside it gives a time here, where the source gives None (ValueError) or lets OverflowError/OSError escape so the candle is dropped.
- WebsocketHandler.Accept: a truthy `currency_pair` that is not text (a number, a list) is refused, where the source stores it in the row, because rows hold pairs as text.
- RestClient.GateioAPI.RateLimitedFetch: uses the corrected throttle `Step` of the finding below, not the throttle as written (`StepAsWritten`).
- Taliban.Receive: uses the corrected minute gate `Gate` of the finding below, not the gate as written (`GateAsWritten`).
- Taliban.ReceiveSpec: states the corrected gate, through `Receive`.
- Taliban.GateIOWebSocket.OnMessage: follows `Receive`, so it uses the corrected minute gate too.

## Findings

| source | as written | input that shows it | evidently intended | confidence | as-written member | corrected member |
|---|---|---|---|---|---|---|
| api/api_gateio_bkp.py:56-62 | `last_request_time` and `requests_made` are only reset inside the branch that sleeps, so once a second has passed the count grows without bound and the limit is never enforced again | `rate_limit` 1, created at t=0, requests at t=2.0 and t=2.5: neither sleeps and the count reaches 2 > 1 | a request a second or more after the window start opens a new window, so no window holds more than `rate_limit` requests | not executed | RestClient.AsWrittenExceedsLimit | RestClient.RunKeepsLimit |
| control/pandas_handler.py:107-115 | `delete_market_rows` and `delete_account_rows` call `update_data` on the `CustomSortFilterProxyModel` that `init_market_data_model`/`init_account_data_model` return, which has no such method | the proxy of `init_market_data_model` and the label 0 of a one-row frame: the drop succeeds, then AttributeError | the proxy's source model shows the new frame | not executed | PandasHandler.DeleteRowsAsWritten | PandasHandler.DeleteRows |
| teknik/taliban.py:52 | the minute gate compares `(now - last).seconds` with 60, and `timedelta.seconds` drops whole days | last update at t=0, candle at t=86430 (a day and 30 s later): `.seconds` is 30, so the candle is skipped | the gate opens once 60 seconds or more have passed in total | not executed | Taliban.GateAsWrittenForgetsDays | Taliban.GateSpec |
