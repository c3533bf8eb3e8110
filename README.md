# Market-data alert engine of a futures-watching chat bot, in Dafny

The bot watches a set of exchange symbols on a multiplexed kline (candle) stream. For
every candle update it computes the intra-candle change in percent. It sends an alert
when the absolute change reaches a threshold, and it remembers per symbol the open time
of the candle it last alerted on, so that later updates of that candle stay quiet. An operator edits the watched set, the
threshold and the candle timeframe from a chat menu. An hourly task replaces the watched
set with the perpetual USDT contracts that are trading and have at least 20,000,000 of
24-hour quote volume.

This project models that decision logic and proves its properties:

- `Engine` holds the configuration as a value (`Config`: symbols, threshold, timeframe,
  and the `lastAlert` markers). It also holds the candle step `Decide` and every state
  change as a typed `Event`. `Run` applies any interleaving of events. The lemmas in
  `Engine` cover deduplication, the threshold, the alert direction and the frame of
  every edit.
- `Watch.WatchState` is the bot's global `state` dictionary as a class whose methods
  update its fields in place. Each edit and the candle step are tied to `Engine.Apply` / `Engine.Decide`,
  `Listen` to `Engine.Run`, and `StreamUrl` to `Streams.Connection`.
  `Listen` is the listener's message loop over every message it handles, across
  reconnects.
- `Universe` is the liquidity filter: the volume dictionary, the eligibility test and
  the appending selection loop.
- `Streams` builds the subscription: one `lower(symbol)@kline_<timeframe>` per symbol,
  joined with `/`. No connection is made when nothing is watched.
- `Text` models Python's `strip`, `upper`, `lower`, `replace(pat, "")`, `join`, and
  `split` as the inverse of `join`.

Prices, changes, volumes and thresholds are exact `real`s. Candle open times are
integers. The source compares `str(k["t"])`, and decimal rendering of an integer is
injective, so comparing the texts is the same as comparing the numbers.

Inputs that come from outside become parameters:
- the decoded message;
- whether the notification sink accepted the alert (`Message.sinkOk`);
- the already-parsed threshold (`Option<real>`);
- the decoded market data (`Option<MarketData>`, where `None` is a failed fetch);
- the iteration order of the symbol set (`order`, with `Streams.Enumerates`).

The model follows the code, including these behaviours a reader may not expect:

- A zero open price is not guarded. The division raises, the listener catches it and
  reconnects, and nothing is recorded. This is the `ZeroOpenPrice` outcome, and the
  state is unchanged. The division comes before the dedup check, so this happens even
  for a candle that is already marked.
- The alert is sent before the marker is written (bot.py:145-146). If sending raises,
  no marker is stored and a later update of the same candle alerts again. This is the
  `SendFailed` outcome, and the state is unchanged.
- Updates for symbols that are not in `symbols` are still evaluated. The code never
  consults the watched set when it handles a message.
- The threshold is not checked for sign. Any number that parses is stored. With a
  threshold of 0 or less, a change of 0 fires a "down" alert.
- The timeframe is not validated. A `tf_` tag sets it to the tag with every `tf_`
  removed (`str.replace`), so `tf_tf_5m` also gives `5m`.
- The marker keeps only the latest alerted candle per symbol, whatever its timeframe.
  "At most one alert per (symbol, open time)" therefore holds only while open times do
  not go backwards per symbol. `Engine.AtMostOneAlertPerCandle` proves it under that
  hypothesis. Open times do go backwards when the operator switches timeframes: after
  1h, 5m and back to 1h within one hour, the 5m candle at 12:55 has overwritten the marker
  of the 1h candle at 12:00, and that 1h candle alerts again with the very same alert
  (`Engine.TimeframeToggleRepeats`). `Engine.RepeatWhenOpenTimeGoesBack` shows the same
  repeat for an older candle arriving after a newer one.

## Model

| member | source | states |
|---|---|---|
| `Engine.Decide` | bot.py:128-147 | zero open price gives an error outcome with the state unchanged; a candle whose open time equals the stored marker is a duplicate with the state unchanged; a change below the threshold is quiet with the state unchanged; otherwise an alert is raised with the symbol, timeframe, change and open time, pointing up exactly when the change is positive; it is delivered and the marker becomes exactly (change, open time) only if the sink accepts it; symbols, threshold, timeframe and every other marker never change |
| `Engine.Apply` | bot.py:74-109 | no event except a candle produces an alert or touches a marker; a candle never changes symbols, threshold or timeframe; at most one alert per event |
| `Engine.AddSymbolIdempotent` | bot.py:89-92 | adding the same text twice leaves the same state as adding it once |
| `Engine.EditsUseNormalizedText` | bot.py:89-98 | adding or removing the stripped, upper-cased text has the same effect as the text as typed |
| `Engine.RemoveSymbolUndoesAdd` | bot.py:97-98 | removing is idempotent for any spelling with the same normal form, and removing undoes adding a symbol that was not watched |
| `Engine.TimeframeFromTag` | bot.py:74-76 | a button tag `tf_X`, where `X` contains no further `tf_`, sets the timeframe to exactly `X` and changes nothing else |
| `Engine.MenuButtons` | bot.py:42-85 | the three menu buttons set 5m, 15m and 1h |
| `Engine.TimeframeButton` | bot.py:74-76 | a tag `tf_` followed by a name of at most three characters other than `tf_` sets the timeframe to exactly that name and changes nothing else |
| `Engine.OtherButtons` | bot.py:57-85 | the add, remove, threshold and status buttons leave the configuration unchanged |
| `Engine.RefreshReplacesSymbols` | bot.py:171-190 | after a successful refresh the watched set is exactly the eligible instrument symbols, whatever was watched before; threshold, timeframe and markers are untouched; a failed refresh changes nothing |
| `Engine.CandleScenarios` | bot.py:134-146 | threshold 5, open 100 close 106 alerts up with change 6 and marker (6, t); a second update of that candle is suppressed; open 100 close 96 is below the threshold |
| `Engine.NoRefire` | bot.py:136-140 | once the marker of a symbol is at or past open time t, and no later candle of that symbol is older than the marker, no alert for candle (symbol, t) is delivered again |
| `Engine.AtMostOneAlertPerCandle` | bot.py:136-146 | over any interleaving of candles, edits and refreshes in which open times do not decrease per symbol, no two delivered alerts concern the same (symbol, open time) |
| `Engine.RepeatWhenOpenTimeGoesBack` | bot.py:136-146 | when an older candle arrives after a newer one, it alerts a second time, so the monotonicity hypothesis is needed |
| `Engine.TimeframeToggleRepeats` | bot.py:136-146 | from any 1h configuration with a threshold of at most 10 % and no marker for the 12:00 candle: a 10 % move of that candle, a switch to 5m, a 10 % move of the 12:55 candle, a switch back to 1h and another update of the 12:00 candle deliver three alerts, the first and the third identical |
| `Engine.ToggleBack` | bot.py:136-146 | after switching back to 1h, a marker for the 12:55 candle does not stop an alert for the 12:00 candle |
| `Engine.BigMoveFires` | bot.py:134-146 | a 10 % move of a candle not yet marked, delivered by the sink at a threshold of at most 10 %, fires an "up" alert and records the marker (10, open time) |
| `Engine.ChangePct` | bot.py:134 | the change c in percent satisfies c × open = (close − open) × 100; it is 0 exactly when close equals open, and for a positive open price it is positive exactly when the price rose |
| `Engine.MarkersRecordDeliveredAlerts` | bot.py:145-146 | after any run every marker is either one the run started with or the (change, open time) of an alert the run delivered for that symbol |
| `Engine.ChangeValueIgnored` | bot.py:136-142 | the stored change value never influences a decision: configurations differing only in it deliver the same alerts over every run and keep differing only in it |
| `Universe.Volumes` | bot.py:171 | the volume dictionary has exactly the symbols of the ticker list as keys |
| `Universe.VolumeOfIsLastTicker` | bot.py:171-180 | the looked-up volume is that of the last ticker naming the symbol |
| `Universe.VolumeOfMissing` | bot.py:171-180 | a symbol no ticker names gets volume 0 |
| `Universe.Eligible` | bot.py:176-180 | an eligible instrument has a ticker, and its volume is at least 20,000,000 |
| `Universe.Liquid` | bot.py:173-182 | the selected list is no longer than the instrument list, and each selected symbol has a ticker volume of at least 20,000,000 |
| `Universe.LiquidSet` | bot.py:171-184 | every symbol of the new watch set has a ticker volume of at least 20,000,000; an empty instrument list gives an empty set |
| `Universe.LiquidMembers` | bot.py:174-182 | a symbol is selected exactly when some instrument with that symbol passes the eligibility test |
| `Universe.SelectLiquid` | bot.py:173-182 | the appending loop over the instrument list yields exactly the eligible symbols in list order |
| `Universe.LiquidSetExactly` | bot.py:171-184 | the new watch set is exactly the symbols of instruments that are PERPETUAL, quoted in USDT, TRADING and have a quote volume of at least 20,000,000, a missing volume counting as 0 |
| `Universe.LiquidSetExample` | bot.py:176-182 | a 25,000,000-volume perpetual USDT contract is kept and a 1,000,000-volume one is dropped |
| `Streams.StreamName` | bot.py:123 | the stream name is the symbol lower-cased character by character, followed by exactly `@kline_` and the timeframe; it contains no '/' when neither the symbol nor the timeframe does |
| `Streams.StreamNames` | bot.py:123 | the list comprehension gives one stream name per symbol, in the iteration order; `Streams.ConnectionLists` shows the names come back out of the URL |
| `Streams.Connection` | bot.py:119-124 | none exactly when the iteration order is empty; otherwise a URL that starts with the stream endpoint and goes on past it |
| `Streams.ConnectsIffWatching` | bot.py:119-121 | for an iteration order of the watched set, a connection URL exists exactly when the set is non-empty |
| `Streams.ConnectionLists` | bot.py:123-124 | the URL is the stream endpoint followed by names that split on '/' back into one `lower(s)@kline_<timeframe>` per symbol, in iteration order, provided no symbol and not the timeframe contain '/' |
| `Text.TrimLeftSpec` | bot.py:89 | drops exactly the leading whitespace, leaving a suffix that starts with a non-space |
| `Text.TrimRightSpec` | bot.py:89 | drops exactly the trailing whitespace, leaving a prefix that ends with a non-space |
| `Text.Normalize` | bot.py:89 | `strip().upper()` leaves no whitespace at either end and no lower-case ASCII letter |
| `Text.NormalizeExample` | bot.py:89 | the typed text " btcusdt\n" becomes exactly "BTCUSDT" |
| `Text.NormalizeIdempotent` | bot.py:89 | strip-then-upper applied twice equals applying it once |
| `Text.Strip` | bot.py:89 | `strip()` never lengthens the text and leaves no whitespace at either end; what exactly it drops is stated by `Text.TrimLeftSpec` and `Text.TrimRightSpec` |
| `Text.UpperChar` | bot.py:89 | a letter 'a'..'z' becomes the letter 32 code points below it (its capital), every other character is kept, whitespace stays whitespace and no lower-case letter results |
| `Text.Upper` | bot.py:89 | `upper()` keeps the length and maps each character by `Text.UpperChar`, so every 'a'..'z' becomes its capital, no lower-case ASCII letter is left, every other character is kept and whitespace maps to whitespace only |
| `Text.UpperIdempotent` | bot.py:89 | upper-casing twice equals upper-casing once |
| `Text.LowerChar` | bot.py:123 | a letter 'A'..'Z' becomes the letter 32 code points above it (its small form), every other character is kept, '/' is kept and no upper-case letter results |
| `Text.Lower` | bot.py:123 | `lower()` keeps the length and maps each character by `Text.LowerChar`, so every 'A'..'Z' becomes its small letter, no upper-case ASCII letter is left, every other character is kept, and '/' is exactly where the input has it |
| `Text.StartsWith` | bot.py:74 | `startswith(prefix)` holds exactly when the text begins with the prefix character by character, and then the text is the prefix followed by the rest |
| `Text.Join` | bot.py:123 | `sep.join(names)` begins with the first name, and with two or more names the separator follows it; `Text.SplitJoin` shows that splitting gives the names back |
| `Text.RemoveAll` | bot.py:75 | `replace(pat, "")` never lengthens the text and keeps only characters of it, each at most as often |
| `Text.RemoveAllAbsent` | bot.py:75 | replace with "" leaves a string without the pattern unchanged |
| `Text.RemoveAllFirst` | bot.py:75 | Python's left-to-right rule: with the first occurrence of the pattern at i, the result is the text before i followed by the removal applied to what follows that occurrence |
| `Text.RemoveAllKeepsPrefix` | bot.py:75 | a prefix at none of whose positions the pattern occurs is kept unchanged in front of the removal applied to the rest |
| `Text.RemoveAllExample` | bot.py:75 | `"tf_tf_5m".replace("tf_", "")` is "5m": every occurrence is removed, not only the first |
| `Text.RemoveAllPrefix` | bot.py:75 | removing the pattern from pattern + x, where x contains no further occurrence, yields exactly x |
| `Text.SplitJoin` | bot.py:123 | joining names that contain no separator and splitting on it gives back the names |
| `Text.LowerKeepsSlash` | bot.py:123 | lower-casing neither introduces nor removes '/' |
| `Watch.WatchState.constructor` | bot.py:20-25 | the default state: symbols {BTCUSDT}, threshold 5.0, timeframe 5m, no markers |
| `Watch.WatchState.OnCandle` | bot.py:128-147 | the new state and the outcome are exactly those of `Engine.Decide`; only the marker of the update's symbol can change, and only when the alert was delivered |
| `Watch.WatchState.Listen` | bot.py:117-153 | over the messages handled across reconnects, the loop ends in the state and with the delivered alerts of `Engine.Run`; with non-decreasing open times per symbol no candle is alerted twice |
| `Watch.WatchState.AddSymbol` | bot.py:89-92 | inserts the stripped, upper-cased text; threshold, timeframe and markers unchanged |
| `Watch.WatchState.RemoveSymbol` | bot.py:97-98 | discards the stripped, upper-cased text; threshold, timeframe and markers unchanged |
| `Watch.WatchState.SetThreshold` | bot.py:103-109 | a parsed number becomes the threshold; unparsable text changes nothing; nothing else changes |
| `Watch.WatchState.OnButton` | bot.py:57-85 | a tag starting with `tf_` sets the timeframe to the tag with every `tf_` removed; any other tag and every other field are unchanged |
| `Watch.WatchState.RefreshUniverse` | bot.py:166-190 | successful market data replaces the watched set by the liquid set; a failed fetch changes nothing; threshold, timeframe and markers are untouched |
| `Watch.WatchState.StreamUrl` | bot.py:119-124 | returns the URL built from the current symbols and timeframe, and none exactly when no symbol is watched |

## Left out

- Engine.AtMostOneAlertPerCandle: proved only for event sequences whose candle open times do not decrease per symbol. Without that hypothesis the source itself alerts twice for one candle. Switching the timeframe to a shorter one and back within one long candle is the realistic way this happens (see `Engine.TimeframeToggleRepeats`).
- Watch.WatchState.Listen: connection boundaries are not modelled. `ms` lists only the messages the listener actually reads; a message that would have followed an error on a connection the error ended is simply not in it.
- Chat front end: menus, prompts, the `awaiting` dialogue state, the status message and the rendering of alert text (`{change:.2f}`). Inputs arrive as typed events instead.
- Network I/O: the websocket connection, its ping settings and the reading of messages, and both HTTP requests. Only their decoded records are modelled. Malformed messages and missing JSON keys, which raise and make the listener reconnect, are outside a model of decoded records.
- Concurrency and timing: the cancel-and-recreate of the listener task in `reset_ws`, the sleeps and the retry loops. Three consequences for deduplication are not modelled. First, if the listener is cancelled while it waits for `send_message`, the alert can go out without its marker being written. Second, a `send_message` that raises after the message was in fact delivered leaves no marker, so the candle alerts again (the model treats every raise as not delivered). Third, the refresher's `reset_ws` (bot.py:187) and a button's `reset_ws` (bot.py:78) running at the same time can both reach bot.py:163 and orphan one listener task; two listeners then send the same alert twice.
- Persistence: loading and saving `state.json`. Only the default state used when no file exists is modelled.
- Number parsing and IEEE floating point: `float(...)` parsing of prices, volumes and the threshold, rounding, NaN and infinities. All values are exact reals.
- Case mapping: `upper()` and `lower()` are modelled on ASCII letters only. Python's full Unicode case mapping (for example 'ß' to "SS") is not modelled. Whitespace for `strip()` is Python's full list.
- Startup: the TOKEN check and the wiring in `main`.
