/** The decision logic of the alert engine, on values: the watch configuration, the
    change detector applied to one decoded candle update (`ws_listener`, bot.py:128-147),
    the configuration edits of the control surface and the symbol refresher, and runs
    of any interleaving of these events. */
module Engine {
  import opened Wrappers
  import opened Text
  import Universe

  /** The dedup marker stored per symbol: the change that fired and the candle's open time. */
  datatype Marker = Marker(change: real, openTime: int)

  /** The watch configuration (`state`). */
  datatype Config = Config(
    symbols: set<string>,
    threshold: real,
    timeframe: string,
    lastAlert: map<string, Marker>)

  /** One decoded kline message: symbol, open and close price, candle open time. */
  datatype CandleUpdate = CandleUpdate(symbol: string, openPrice: real, closePrice: real, openTime: int)

  /** A decoded message together with the answer the notification sink gives if an
      alert is sent for it (`send_message` may raise). */
  datatype Message = Message(update: CandleUpdate, sinkOk: bool)

  datatype Direction = Up | Down

  /** An alert about one candle instance of one symbol. */
  datatype Alert = Alert(symbol: string, timeframe: string, direction: Direction, change: real, openTime: int)

  /** What the listener does with one message. `SendFailed` and `ZeroOpenPrice` are the
      two exceptions the listener catches before reconnecting. */
  datatype Outcome =
    | Fired(alert: Alert)
    | SendFailed(alert: Alert)
    | Duplicate
    | BelowThreshold
    | ZeroOpenPrice

  datatype Step = Step(config: Config, outcome: Outcome)

  /** The state used when no saved state exists. */
  const DefaultConfig: Config := Config({"BTCUSDT"}, 5.0, "5m", map[])

  /** The tag prefix of the timeframe buttons. */
  const TimeframeTag: string := "tf_"

  function Abs(x: real): real {
    if x < 0.0 then -x else x
  }

  /** The intra-candle change in percent. */
  function ChangePct(openPrice: real, closePrice: real): (r: real)
    requires openPrice != 0.0
    ensures r * openPrice == (closePrice - openPrice) * 100.0
    ensures r == 0.0 <==> closePrice == openPrice
    ensures openPrice > 0.0 ==> (r > 0.0 <==> closePrice > openPrice)
  {
    (closePrice - openPrice) / openPrice * 100.0
  }

  /** An alert has already been recorded for this exact candle instance of `symbol`. */
  predicate Marked(c: Config, symbol: string, openTime: int) {
    symbol in c.lastAlert && c.lastAlert[symbol].openTime == openTime
  }

  /** The candle step of the listener. The change is computed first, so a zero open price
      fails before the dedup check; the alert is sent before the marker is written, so a
      failed send records nothing. */
  function Decide(c: Config, m: Message): (r: Step)
    ensures r.config.symbols == c.symbols && r.config.threshold == c.threshold
    ensures r.config.timeframe == c.timeframe
    ensures r.config.lastAlert - {m.update.symbol} == c.lastAlert - {m.update.symbol}
    ensures r.config != c ==> r.outcome.Fired?
    ensures r.outcome.ZeroOpenPrice? <==> m.update.openPrice == 0.0
    ensures r.outcome.Duplicate? <==>
              m.update.openPrice != 0.0 && Marked(c, m.update.symbol, m.update.openTime)
    ensures r.outcome.BelowThreshold? <==>
              && m.update.openPrice != 0.0 && !Marked(c, m.update.symbol, m.update.openTime)
              && Abs(ChangePct(m.update.openPrice, m.update.closePrice)) < c.threshold
    ensures r.outcome.Fired? <==> m.sinkOk && (r.outcome.Fired? || r.outcome.SendFailed?)
    ensures (r.outcome.Fired? || r.outcome.SendFailed?) ==>
              && m.update.openPrice != 0.0
              && var change := ChangePct(m.update.openPrice, m.update.closePrice);
              && r.outcome.alert.symbol == m.update.symbol
              && r.outcome.alert.openTime == m.update.openTime
              && r.outcome.alert.timeframe == c.timeframe
              && r.outcome.alert.change == change
              && (r.outcome.alert.direction == Up <==> change > 0.0)
    ensures r.outcome.Fired? ==>
              r.config.lastAlert == c.lastAlert[m.update.symbol := Marker(r.outcome.alert.change, m.update.openTime)]
  {
    var u := m.update;
    if u.openPrice == 0.0 then Step(c, ZeroOpenPrice)
    else
      var change := ChangePct(u.openPrice, u.closePrice);
      if Marked(c, u.symbol, u.openTime) then Step(c, Duplicate)
      else if Abs(change) >= c.threshold then
        var alert := Alert(u.symbol, c.timeframe, if change > 0.0 then Up else Down, change, u.openTime);
        if m.sinkOk then Step(c.(lastAlert := c.lastAlert[u.symbol := Marker(change, u.openTime)]), Fired(alert))
        else Step(c, SendFailed(alert))
      else Step(c, BelowThreshold)
  }

  /** Everything that can change the configuration or produce an alert, as typed inputs:
      a decoded candle message, the text typed after "add" or "remove", the already
      parsed number typed after "set threshold" (None when `float` failed), a pressed
      button's callback tag, and one refresh of the liquid universe (None when a fetch
      or decode failed). */
  datatype Event =
    | Candle(msg: Message)
    | AddSymbol(text: string)
    | RemoveSymbol(text: string)
    | SetThreshold(parsed: Option<real>)
    | PressButton(tag: string)
    | Refresh(data: Option<Universe.MarketData>)

  /** The new configuration and the alerts delivered. */
  datatype RunResult = RunResult(final: Config, alerts: seq<Alert>)

  /** One event. Only a candle can produce an alert or touch the dedup markers. */
  function Apply(c: Config, e: Event): (r: RunResult)
    ensures |r.alerts| <= 1
    ensures !e.Candle? ==> r.alerts == [] && r.final.lastAlert == c.lastAlert
    ensures e.Candle? ==>
              r.final.symbols == c.symbols && r.final.threshold == c.threshold && r.final.timeframe == c.timeframe
  {
    match e
    case Candle(m) =>
      var st := Decide(c, m);
      RunResult(st.config, if st.outcome.Fired? then [st.outcome.alert] else [])
    case AddSymbol(text) =>
      RunResult(c.(symbols := c.symbols + {Normalize(text)}), [])
    case RemoveSymbol(text) =>
      RunResult(c.(symbols := c.symbols - {Normalize(text)}), [])
    case SetThreshold(parsed) =>
      RunResult(if parsed.Some? then c.(threshold := parsed.value) else c, [])
    case PressButton(tag) =>
      RunResult(if StartsWith(tag, TimeframeTag) then c.(timeframe := RemoveAll(tag, TimeframeTag)) else c, [])
    case Refresh(data) =>
      RunResult(if data.Some? then c.(symbols := Universe.LiquidSet(data.value)) else c, [])
  }

  /** A sequence of events, in order. */
  function Run(c: Config, es: seq<Event>): RunResult
    decreases |es|
  {
    if es == [] then RunResult(c, [])
    else
      var first := Apply(c, es[0]);
      var rest := Run(first.final, es[1..]);
      RunResult(rest.final, first.alerts + rest.alerts)
  }

  /** The candle messages of one listener connection, as events. */
  function Candles(ms: seq<Message>): (es: seq<Event>)
    ensures |es| == |ms| && forall i :: 0 <= i < |ms| ==> es[i] == Candle(ms[i])
  {
    seq(|ms|, i requires 0 <= i < |ms| => Candle(ms[i]))
  }

  /** Running one more event after a run extends that run by the event's step. */
  lemma {:induction false} RunSnoc(c: Config, es: seq<Event>, e: Event)
    ensures var r := Run(c, es);
            var last := Apply(r.final, e);
            Run(c, es + [e]) == RunResult(last.final, r.alerts + last.alerts)
    decreases |es|
  {
    if es == [] {
      assert [] + [e] == [e];
    } else {
      assert (es + [e])[0] == es[0];
      assert (es + [e])[1..] == es[1..] + [e];
      var first := Apply(c, es[0]);
      RunSnoc(first.final, es[1..], e);
      var rest := Run(first.final, es[1..]);
      var last := Apply(rest.final, e);
      assert first.alerts + (rest.alerts + last.alerts) == (first.alerts + rest.alerts) + last.alerts;
    }
  }

  // ----- Control surface and refresher -----

  /** Adding a symbol twice is adding it once. */
  lemma AddSymbolIdempotent(c: Config, text: string)
    ensures var once := Apply(c, AddSymbol(text)).final;
            Apply(once, AddSymbol(text)).final == once
  {
  }

  /** Adding or removing the normalised spelling has the same effect as the typed text. */
  lemma EditsUseNormalizedText(c: Config, text: string)
    ensures Apply(c, AddSymbol(Normalize(text))) == Apply(c, AddSymbol(text))
    ensures Apply(c, RemoveSymbol(Normalize(text))) == Apply(c, RemoveSymbol(text))
  {
    NormalizeIdempotent(text);
  }

  /** Removing a symbol twice is removing it once, and removing undoes adding a symbol
      that was not watched (whatever the spelling typed). */
  lemma RemoveSymbolUndoesAdd(c: Config, text: string, again: string)
    requires Normalize(again) == Normalize(text)
    ensures var once := Apply(c, RemoveSymbol(text)).final;
            Apply(once, RemoveSymbol(again)).final == once
    ensures Normalize(text) !in c.symbols ==>
              Apply(Apply(c, AddSymbol(text)).final, RemoveSymbol(again)).final == c
  {
    var added := Apply(c, AddSymbol(text)).final;
    assert added == c.(symbols := c.symbols + {Normalize(text)});
    if Normalize(text) !in c.symbols {
      assert added.symbols - {Normalize(again)} == c.symbols;
    }
  }

  /** A timeframe button `tf_X` sets the timeframe to `X` when `X` holds no further
      `tf_`; symbols, threshold and markers are unchanged. */
  lemma {:induction false} TimeframeFromTag(c: Config, x: string)
    requires !Occurs(x, TimeframeTag)
    ensures Apply(c, PressButton(TimeframeTag + x)).final == c.(timeframe := x)
  {
    assert (TimeframeTag + x)[..|TimeframeTag|] == TimeframeTag;
    RemoveAllPrefix(TimeframeTag, x);
  }

  /** The three timeframe buttons of the menu set 5m, 15m and 1h. */
  lemma MenuButtons(c: Config)
    ensures Apply(c, PressButton("tf_5m")).final.timeframe == "5m"
    ensures Apply(c, PressButton("tf_15m")).final.timeframe == "15m"
    ensures Apply(c, PressButton("tf_1h")).final.timeframe == "1h"
  {
    assert TimeframeTag + "5m" == "tf_5m";
    TimeframeButton(c, "5m");
    assert TimeframeTag + "15m" == "tf_15m";
    assert "15m"[0] != TimeframeTag[0];
    TimeframeButton(c, "15m");
    assert TimeframeTag + "1h" == "tf_1h";
    TimeframeButton(c, "1h");
  }

  /** A timeframe name no longer than the tag prefix, such as the menu's, is set verbatim. */
  lemma TimeframeButton(c: Config, x: string)
    requires |x| <= |TimeframeTag| && x != TimeframeTag
    ensures Apply(c, PressButton(TimeframeTag + x)).final == c.(timeframe := x)
  {
    assert !Occurs(x, TimeframeTag) by {
      if |x| == |TimeframeTag| {
        assert !OccursAt(x, TimeframeTag, 0) by { assert x[0..|x|] == x; }
      }
    }
    TimeframeFromTag(c, x);
  }

  /** The other buttons of the menu only open a prompt or show the status; they change
      nothing. */
  lemma OtherButtons(c: Config, tag: string)
    requires tag in {"add", "remove", "set_threshold", "status"}
    ensures Apply(c, PressButton(tag)).final == c
  {
    assert tag[0] != TimeframeTag[0];
  }

  /** A refresh replaces the watched set by exactly the liquid set, keeping nothing of the
      old set, and leaves threshold, timeframe and markers alone; a failed refresh changes
      nothing. */
  lemma RefreshReplacesSymbols(c: Config, data: Option<Universe.MarketData>, x: string)
    ensures var next := Apply(c, Refresh(data)).final;
            && next.threshold == c.threshold && next.timeframe == c.timeframe
            && next.lastAlert == c.lastAlert
            && (data.None? ==> next == c)
            && (data.Some? ==>
                  (x in next.symbols <==>
                     exists i :: 0 <= i < |data.value.instruments| && data.value.instruments[i].symbol == x
                       && data.value.instruments[i].contractType == "PERPETUAL"
                       && data.value.instruments[i].quoteAsset == "USDT"
                       && data.value.instruments[i].status == "TRADING"
                       && Universe.VolumeOf(Universe.Volumes(data.value.tickers), x) >= Universe.LiquidityFloor))
  {
    if data.Some? {
      Universe.LiquidSetExactly(data.value, x);
    }
  }

  // ----- The candle step -----

  /** The worked scenarios: a 6% rise alerts "up" and records the marker, a later update
      of the same candle is suppressed, a 4% fall stays below a 5% threshold. */
  lemma CandleScenarios(t: int)
    ensures var c := DefaultConfig;
            var up := Decide(c, Message(CandleUpdate("BTCUSDT", 100.0, 106.0, t), true));
            && up.outcome == Fired(Alert("BTCUSDT", "5m", Up, 6.0, t))
            && up.config.lastAlert["BTCUSDT"] == Marker(6.0, t)
            && Decide(up.config, Message(CandleUpdate("BTCUSDT", 100.0, 107.0, t), true)).outcome == Duplicate
            && Decide(c, Message(CandleUpdate("BTCUSDT", 100.0, 96.0, t), true)).outcome == BelowThreshold
  {
    assert ChangePct(100.0, 106.0) == 6.0;
    assert ChangePct(100.0, 96.0) == -4.0;
  }

  /** Open times never decrease along the candle messages of one symbol. The exchange
      streams the klines of one timeframe in this order, but a switch of the timeframe
      breaks it: after a shorter timeframe, the longer candle that is still open began
      earlier (see `TimeframeToggleRepeats`). */
  predicate OpenTimesMonotone(es: seq<Event>) {
    forall i, j ::
      (0 <= i < j < |es| && es[i].Candle? && es[j].Candle?
       && es[i].msg.update.symbol == es[j].msg.update.symbol) ==>
      es[i].msg.update.openTime <= es[j].msg.update.openTime
  }

  predicate SameCandle(a: Alert, b: Alert) {
    a.symbol == b.symbol && a.openTime == b.openTime
  }

  lemma MonotoneTail(es: seq<Event>)
    requires es != [] && OpenTimesMonotone(es)
    ensures OpenTimesMonotone(es[1..])
  {
    var rest := es[1..];
    forall i, j | 0 <= i < j < |rest| && rest[i].Candle? && rest[j].Candle?
      && rest[i].msg.update.symbol == rest[j].msg.update.symbol
      ensures rest[i].msg.update.openTime <= rest[j].msg.update.openTime
    {
      assert rest[i] == es[i + 1] && rest[j] == es[j + 1];
    }
  }

  /** Once the marker of `s` is at or past `t`, and no later candle of `s` is older than
      the marker, no alert for candle `(s, t)` is ever delivered again. */
  lemma {:induction false} NoRefire(c: Config, es: seq<Event>, s: string, t: int)
    requires s in c.lastAlert && t <= c.lastAlert[s].openTime
    requires OpenTimesMonotone(es)
    requires forall i :: 0 <= i < |es| && es[i].Candle? && es[i].msg.update.symbol == s ==>
               c.lastAlert[s].openTime <= es[i].msg.update.openTime
    ensures forall a :: a in Run(c, es).alerts ==> !(a.symbol == s && a.openTime == t)
    decreases |es|
  {
    if es != [] {
      var first := Apply(c, es[0]);
      var next := first.final;
      var rest := es[1..];
      MonotoneTail(es);
      assert s in next.lastAlert;
      assert forall a :: a in first.alerts ==> !(a.symbol == s && a.openTime == t);
      assert t <= next.lastAlert[s].openTime;
      forall i | 0 <= i < |rest| && rest[i].Candle? && rest[i].msg.update.symbol == s
        ensures next.lastAlert[s].openTime <= rest[i].msg.update.openTime
      {
        assert rest[i] == es[i + 1];
        if next.lastAlert[s] != c.lastAlert[s] {
          assert es[0].Candle? && es[0].msg.update.symbol == s;
        }
      }
      NoRefire(next, rest, s, t);
    }
  }

  /** No two alerts of the list concern the same candle. */
  predicate DistinctCandles(alerts: seq<Alert>) {
    forall i, j :: 0 <= i < j < |alerts| ==> !SameCandle(alerts[i], alerts[j])
  }

  /** Putting an alert for a candle no later alert concerns in front of a list without
      repeats keeps it without repeats. */
  lemma ConsDistinct(a: Alert, tail: seq<Alert>)
    requires DistinctCandles(tail)
    requires forall x :: x in tail ==> !(x.symbol == a.symbol && x.openTime == a.openTime)
    ensures DistinctCandles([a] + tail)
  {
    var alerts := [a] + tail;
    forall i, j | 0 <= i < j < |alerts| ensures !SameCandle(alerts[i], alerts[j]) {
      assert alerts[j] == tail[j - 1];
      if i == 0 {
        assert alerts[j] in tail;
      } else {
        assert alerts[i] == tail[i - 1];
      }
    }
  }

  /** The dedup guarantee: as long as candle open times do not go backwards per symbol,
      any interleaving of candle messages, configuration edits and refreshes delivers at
      most one alert per (symbol, candle open time). */
  lemma {:induction false} AtMostOneAlertPerCandle(c: Config, es: seq<Event>)
    requires OpenTimesMonotone(es)
    ensures DistinctCandles(Run(c, es).alerts)
    decreases |es|
  {
    if es != [] {
      var first := Apply(c, es[0]);
      var rest := es[1..];
      MonotoneTail(es);
      AtMostOneAlertPerCandle(first.final, rest);
      var tail := Run(first.final, rest).alerts;
      assert Run(c, es).alerts == first.alerts + tail;
      if first.alerts != [] {
        var a := first.alerts[0];
        assert first.alerts == [a];
        assert first.final.lastAlert[a.symbol].openTime == a.openTime;
        forall i | 0 <= i < |rest| && rest[i].Candle? && rest[i].msg.update.symbol == a.symbol
          ensures first.final.lastAlert[a.symbol].openTime <= rest[i].msg.update.openTime
        {
          assert rest[i] == es[i + 1];
        }
        NoRefire(first.final, rest, a.symbol, a.openTime);
        ConsDistinct(a, tail);
      }
    }
  }

  /** An update of the BTCUSDT candle opening at `t` that moved from 100 to 110 (10 %),
      delivered by the sink. */
  function BigMove(t: int): Event {
    Candle(Message(CandleUpdate("BTCUSDT", 100.0, 110.0, t), true))
  }

  /** Without monotone open times the marker, which keeps only the latest candle, does
      not prevent a repeat: an older candle arriving after a newer one alerts again. */
  lemma RepeatWhenOpenTimeGoesBack()
    ensures var alerts := Run(DefaultConfig, [BigMove(1), BigMove(2), BigMove(1)]).alerts;
            |alerts| == 3 && SameCandle(alerts[0], alerts[2])
  {
    assert ChangePct(100.0, 110.0) == 10.0;
    var es := [BigMove(1), BigMove(2), BigMove(1)];
    assert es[1..] == [BigMove(2), BigMove(1)];
    assert es[1..][1..] == [BigMove(1)];
    var s1 := Apply(DefaultConfig, BigMove(1));
    assert s1.alerts == [Alert("BTCUSDT", "5m", Up, 10.0, 1)];
    var s2 := Apply(s1.final, BigMove(2));
    assert s2.alerts == [Alert("BTCUSDT", "5m", Up, 10.0, 2)];
    var s3 := Apply(s2.final, BigMove(1));
    assert s3.alerts == [Alert("BTCUSDT", "5m", Up, 10.0, 1)];
    assert Run(s2.final, [BigMove(1)]).alerts == s3.alerts;
    assert Run(s1.final, es[1..]).alerts == s2.alerts + s3.alerts;
    assert Run(DefaultConfig, es).alerts == s1.alerts + s2.alerts + s3.alerts;
  }

  /** A 10 % move of a candle not yet marked fires at a threshold of at most 10 % and
      records its marker. */
  lemma BigMoveFires(c: Config, t: int)
    requires c.threshold <= 10.0 && !Marked(c, "BTCUSDT", t)
    ensures Apply(c, BigMove(t)) ==
              RunResult(c.(lastAlert := c.lastAlert["BTCUSDT" := Marker(10.0, t)]),
                        [Alert("BTCUSDT", c.timeframe, Up, 10.0, t)])
  {
    assert ChangePct(100.0, 110.0) == 10.0;
  }

  /** The realistic way open times go back: switching to a shorter timeframe and back
      within one long candle. On 1h candles the 12:00 candle alerts; after a switch to 5m
      the 12:55 candle alerts and overwrites the marker; after the switch back the next
      update of the 12:00 candle alerts again with the very same alert. Open times are
      in minutes after 12:00. */
  lemma TimeframeToggleRepeats(c: Config)
    requires c.timeframe == "1h" && c.threshold <= 10.0 && !Marked(c, "BTCUSDT", 0)
    ensures var es := [BigMove(0), PressButton("tf_5m"), BigMove(55), PressButton("tf_1h"), BigMove(0)];
            var alerts := Run(c, es).alerts;
            && |alerts| == 3
            && alerts[0] == alerts[2] == Alert("BTCUSDT", "1h", Up, 10.0, 0)
            && alerts[1] == Alert("BTCUSDT", "5m", Up, 10.0, 55)
  {
    var es := [BigMove(0), PressButton("tf_5m"), BigMove(55), PressButton("tf_1h"), BigMove(0)];
    BigMoveFires(c, 0);
    var c1 := Apply(c, BigMove(0)).final;
    assert "tf_5m" == TimeframeTag + "5m";
    TimeframeButton(c1, "5m");
    var c2 := c1.(timeframe := "5m");
    BigMoveFires(c2, 55);
    var c3 := Apply(c2, BigMove(55)).final;
    ToggleBack(c3);
    assert es[1..][1..][1..] == [PressButton("tf_1h"), BigMove(0)];
    assert Run(c2, es[1..][1..]).alerts == [Alert("BTCUSDT", "5m", Up, 10.0, 55), Alert("BTCUSDT", "1h", Up, 10.0, 0)];
    assert Run(c1, es[1..]) == Run(c2, es[1..][1..]);
  }

  /** The second half of the toggle: back on 1h, the marker of the 5m candle does not
      stop the 12:00 candle. */
  lemma ToggleBack(d: Config)
    requires d.timeframe == "5m" && d.threshold <= 10.0 && Marked(d, "BTCUSDT", 55)
    ensures Run(d, [PressButton("tf_1h"), BigMove(0)]).alerts == [Alert("BTCUSDT", "1h", Up, 10.0, 0)]
  {
    assert "tf_1h" == TimeframeTag + "1h";
    assert "1h"[0] != TimeframeTag[0];
    TimeframeButton(d, "1h");
    var d1 := d.(timeframe := "1h");
    BigMoveFires(d1, 0);
    assert [PressButton("tf_1h"), BigMove(0)][1..] == [BigMove(0)];
  }

  /** Every stored marker is either one the run started with or describes a delivered
      alert of the run: markers are written only for alerts that reached the sink. */
  lemma {:induction false} MarkersRecordDeliveredAlerts(c: Config, es: seq<Event>)
    ensures var r := Run(c, es);
            forall s :: s in r.final.lastAlert ==>
              (s in c.lastAlert && r.final.lastAlert[s] == c.lastAlert[s]) ||
              exists a :: a in r.alerts && a.symbol == s && r.final.lastAlert[s] == Marker(a.change, a.openTime)
    decreases |es|
  {
    if es != [] {
      var first := Apply(c, es[0]);
      MarkersRecordDeliveredAlerts(first.final, es[1..]);
      var r := Run(c, es);
      forall s | s in r.final.lastAlert
        ensures (s in c.lastAlert && r.final.lastAlert[s] == c.lastAlert[s]) ||
                exists a :: a in r.alerts && a.symbol == s && r.final.lastAlert[s] == Marker(a.change, a.openTime)
      {
        var tail := Run(first.final, es[1..]);
        assert r.alerts == first.alerts + tail.alerts;
        if s in first.final.lastAlert && r.final.lastAlert[s] == first.final.lastAlert[s] {
          if first.alerts != [] && first.alerts[0].symbol == s {
            assert first.alerts[0] in r.alerts;
          }
        } else {
          var a :| a in tail.alerts && a.symbol == s && r.final.lastAlert[s] == Marker(a.change, a.openTime);
          assert a in r.alerts;
        }
      }
    }
  }

  /** Two configurations that differ at most in the change values stored in their
      markers. */
  predicate AgreeExceptChanges(c1: Config, c2: Config) {
    && c1.symbols == c2.symbols && c1.threshold == c2.threshold && c1.timeframe == c2.timeframe
    && c1.lastAlert.Keys == c2.lastAlert.Keys
    && forall s :: s in c1.lastAlert && s in c2.lastAlert ==> c1.lastAlert[s].openTime == c2.lastAlert[s].openTime
  }

  /** The stored change value is never read for a decision: runs from configurations that
      differ only in it deliver the same alerts and stay that way. */
  lemma {:induction false} ChangeValueIgnored(c1: Config, c2: Config, es: seq<Event>)
    requires AgreeExceptChanges(c1, c2)
    ensures Run(c1, es).alerts == Run(c2, es).alerts
    ensures AgreeExceptChanges(Run(c1, es).final, Run(c2, es).final)
    decreases |es|
  {
    if es != [] {
      var a1 := Apply(c1, es[0]);
      var a2 := Apply(c2, es[0]);
      assert a1.alerts == a2.alerts && AgreeExceptChanges(a1.final, a2.final) by {
        if es[0].Candle? {
          var u := es[0].msg.update;
          assert Marked(c1, u.symbol, u.openTime) == Marked(c2, u.symbol, u.openTime);
        }
      }
      ChangeValueIgnored(a1.final, a2.final, es[1..]);
    }
  }
}
