/** The bot's global `state` dictionary as an object whose fields the handlers update in
    place: the listener's candle step and its message loop, the symbol and threshold
    edits of `on_text`, the timeframe buttons of `on_button`, and the hourly refresh of
    the liquid universe. Each method is specified by the value model in module Engine. */
module Watch {
  import opened Wrappers
  import opened Text
  import opened Engine
  import Universe
  import Streams

  class WatchState {
    var symbols: set<string>
    var threshold: real
    var timeframe: string
    var lastAlert: map<string, Marker>

    /** The current configuration as a value. */
    function Snapshot(): Config
      reads this
    {
      Config(symbols, threshold, timeframe, lastAlert)
    }

    /** The state used when no saved state exists: BTCUSDT, 5 %, 5-minute candles, no markers. */
    constructor ()
      ensures symbols == {"BTCUSDT"} && threshold == 5.0 && timeframe == "5m" && lastAlert == map[]
      ensures Snapshot() == DefaultConfig
    {
      symbols := {"BTCUSDT"};
      threshold := 5.0;
      timeframe := "5m";
      lastAlert := map[];
    }

    /** One decoded candle message: compute the change, skip a candle already alerted,
        alert when the move reaches the threshold and then record the marker. */
    method OnCandle(m: Message) returns (outcome: Outcome)
      modifies this
      ensures Step(Snapshot(), outcome) == Decide(old(Snapshot()), m)
      ensures symbols == old(symbols) && threshold == old(threshold) && timeframe == old(timeframe)
      ensures lastAlert == if outcome.Fired?
                           then old(lastAlert)[m.update.symbol := Marker(outcome.alert.change, m.update.openTime)]
                           else old(lastAlert)
    {
      var u := m.update;
      if u.openPrice == 0.0 {
        return ZeroOpenPrice;
      }
      var change := ChangePct(u.openPrice, u.closePrice);
      if u.symbol in lastAlert {
        var last := lastAlert[u.symbol];
        if last.openTime == u.openTime {
          return Duplicate;
        }
      }
      if Abs(change) >= threshold {
        var direction := if change > 0.0 then Up else Down;
        var alert := Alert(u.symbol, timeframe, direction, change, u.openTime);
        if !m.sinkOk {
          return SendFailed(alert);
        }
        lastAlert := lastAlert[u.symbol := Marker(change, u.openTime)];
        return Fired(alert);
      }
      return BelowThreshold;
    }

    /** The listener's message loop, `ms` being every message it handles across
        reconnects, in order, collecting the alerts that reached the sink. A zero open
        price or a failed send ends the current connection, and the listener reconnects;
        both leave the state unchanged, so the next message, read on the new connection,
        meets the same state. When open times do not go backwards per symbol, no candle
        is alerted twice. */
    method Listen(ms: seq<Message>) returns (delivered: seq<Alert>)
      modifies this
      ensures RunResult(Snapshot(), delivered) == Run(old(Snapshot()), Candles(ms))
      ensures OpenTimesMonotone(Candles(ms)) ==> DistinctCandles(delivered)
    {
      ghost var start := Snapshot();
      ghost var es := Candles(ms);
      delivered := [];
      for i := 0 to |ms|
        invariant RunResult(Snapshot(), delivered) == Run(start, es[..i])
      {
        RunSnoc(start, es[..i], es[i]);
        assert es[..i + 1] == es[..i] + [es[i]];
        var outcome := OnCandle(ms[i]);
        if outcome.Fired? {
          delivered := delivered + [outcome.alert];
        }
      }
      assert es[..|ms|] == es;
      if OpenTimesMonotone(es) {
        AtMostOneAlertPerCandle(start, es);
      }
    }

    /** "Add": the typed text, stripped and upper-cased, joins the watched set. */
    method AddSymbol(text: string)
      modifies this
      ensures symbols == old(symbols) + {Normalize(text)}
      ensures threshold == old(threshold) && timeframe == old(timeframe) && lastAlert == old(lastAlert)
      ensures Snapshot() == Apply(old(Snapshot()), Event.AddSymbol(text)).final
    {
      ghost var before := Snapshot();
      var name := Normalize(text);
      symbols := symbols + {name};
      assert Apply(before, Event.AddSymbol(text)).final == before.(symbols := symbols);
    }

    /** "Remove": the typed text, stripped and upper-cased, leaves the watched set (a
        symbol not watched is ignored). */
    method RemoveSymbol(text: string)
      modifies this
      ensures symbols == old(symbols) - {Normalize(text)}
      ensures threshold == old(threshold) && timeframe == old(timeframe) && lastAlert == old(lastAlert)
      ensures Snapshot() == Apply(old(Snapshot()), Event.RemoveSymbol(text)).final
    {
      ghost var before := Snapshot();
      var name := Normalize(text);
      symbols := symbols - {name};
      assert Apply(before, Event.RemoveSymbol(text)).final == before.(symbols := symbols);
    }

    /** "Set %": a number that parsed becomes the threshold, whatever its sign; text that
        did not parse changes nothing. */
    method SetThreshold(parsed: Option<real>)
      modifies this
      ensures threshold == (if parsed.Some? then parsed.value else old(threshold))
      ensures symbols == old(symbols) && timeframe == old(timeframe) && lastAlert == old(lastAlert)
      ensures Snapshot() == Apply(old(Snapshot()), Event.SetThreshold(parsed)).final
    {
      if parsed.Some? {
        threshold := parsed.value;
      }
    }

    /** A menu button: a `tf_` tag sets the timeframe to the tag with every `tf_` removed;
        every other button leaves the state alone. */
    method OnButton(tag: string)
      modifies this
      ensures timeframe == (if StartsWith(tag, TimeframeTag) then RemoveAll(tag, TimeframeTag) else old(timeframe))
      ensures symbols == old(symbols) && threshold == old(threshold) && lastAlert == old(lastAlert)
      ensures Snapshot() == Apply(old(Snapshot()), PressButton(tag)).final
    {
      ghost var before := Snapshot();
      if StartsWith(tag, TimeframeTag) {
        timeframe := RemoveAll(tag, TimeframeTag);
        assert Snapshot() == before.(timeframe := timeframe) == Apply(before, PressButton(tag)).final;
      } else {
        assert Snapshot() == before == Apply(before, PressButton(tag)).final;
      }
    }

    /** One refresh tick: on decoded market data the watched set is replaced by the liquid
        set; after a failed fetch nothing changes. */
    method RefreshUniverse(data: Option<Universe.MarketData>)
      modifies this
      ensures symbols == (if data.Some? then Universe.LiquidSet(data.value) else old(symbols))
      ensures threshold == old(threshold) && timeframe == old(timeframe) && lastAlert == old(lastAlert)
      ensures Snapshot() == Apply(old(Snapshot()), Refresh(data)).final
    {
      if data.Some? {
        var selected := Universe.SelectLiquid(data.value);
        symbols := set x | x in selected;
        assert symbols == Universe.LiquidSet(data.value);
      }
    }

    /** The subscription URL for the current symbols, taken in the set's iteration order
        `order`; None means the listener idles instead of connecting. */
    method StreamUrl(order: seq<string>) returns (url: Option<string>)
      requires Streams.Enumerates(order, symbols)
      ensures url == Streams.Connection(order, timeframe)
      ensures url.None? <==> symbols == {}
    {
      Streams.ConnectsIffWatching(order, symbols, timeframe);
      url := Streams.Connection(order, timeframe);
    }
  }
}
