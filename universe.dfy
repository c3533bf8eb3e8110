/** The liquid-universe filter of the hourly symbol refresher (`update_symbols_task`):
    from the exchange's instrument list and its 24-hour ticker list, select the
    perpetual USDT contracts that are trading with enough quote volume. */
module Universe {

  /** One entry of the instrument metadata list, reduced to the fields the filter reads. */
  datatype Instrument = Instrument(symbol: string, contractType: string, quoteAsset: string, status: string)

  /** One entry of the 24-hour statistics list, with `quoteVolume` already parsed. */
  datatype Ticker = Ticker(symbol: string, quoteVolume: real)

  /** The two decoded responses of one refresh. */
  datatype MarketData = MarketData(instruments: seq<Instrument>, tickers: seq<Ticker>)

  /** The liquidity floor, in quote-currency units. */
  const LiquidityFloor: real := 20000000.0

  /** The dictionary comprehension symbol -> quote volume; a later ticker for the same
      symbol overwrites an earlier one. */
  function Volumes(tickers: seq<Ticker>): (vols: map<string, real>)
    ensures forall s :: s in vols <==> exists i :: 0 <= i < |tickers| && tickers[i].symbol == s
    decreases |tickers|
  {
    if tickers == [] then map[]
    else
      var last := tickers[|tickers| - 1];
      var vols := Volumes(tickers[..|tickers| - 1]);
      assert forall i :: 0 <= i < |tickers| - 1 ==> tickers[..|tickers| - 1][i] == tickers[i];
      vols[last.symbol := last.quoteVolume]
  }

  /** `volumes.get(symbol, 0)`. */
  function VolumeOf(vols: map<string, real>, symbol: string): real {
    if symbol in vols then vols[symbol] else 0.0
  }

  /** A symbol no ticker names has volume 0. */
  lemma {:induction false} VolumeOfMissing(tickers: seq<Ticker>, symbol: string)
    requires forall i :: 0 <= i < |tickers| ==> tickers[i].symbol != symbol
    ensures VolumeOf(Volumes(tickers), symbol) == 0.0
  {
  }

  /** The volume looked up for a symbol is that of the LAST ticker naming it. */
  lemma {:induction false} VolumeOfIsLastTicker(tickers: seq<Ticker>, symbol: string, i: nat)
    requires i < |tickers| && tickers[i].symbol == symbol
    requires forall j :: i < j < |tickers| ==> tickers[j].symbol != symbol
    ensures VolumeOf(Volumes(tickers), symbol) == tickers[i].quoteVolume
    decreases |tickers|
  {
    if i < |tickers| - 1 {
      var init := tickers[..|tickers| - 1];
      assert forall j :: i < j < |init| ==> init[j] == tickers[j];
      VolumeOfIsLastTicker(init, symbol, i);
    }
  }

  /** The selection condition of the refresher for one instrument. */
  predicate Eligible(inst: Instrument, vols: map<string, real>): (b: bool)
    ensures b ==> inst.symbol in vols && vols[inst.symbol] >= LiquidityFloor
  {
    && inst.contractType == "PERPETUAL"
    && inst.quoteAsset == "USDT"
    && inst.status == "TRADING"
    && VolumeOf(vols, inst.symbol) >= LiquidityFloor
  }

  /** The symbols of the eligible instruments, in instrument-list order. */
  function Liquid(instruments: seq<Instrument>, vols: map<string, real>): (r: seq<string>)
    ensures |r| <= |instruments|
    ensures forall k :: 0 <= k < |r| ==> r[k] in vols && vols[r[k]] >= LiquidityFloor
    decreases |instruments|
  {
    if instruments == [] then []
    else
      var init := instruments[..|instruments| - 1];
      var last := instruments[|instruments| - 1];
      Liquid(init, vols) + (if Eligible(last, vols) then [last.symbol] else [])
  }

  /** A symbol is selected exactly when some instrument with that symbol is eligible. */
  lemma {:induction false} LiquidMembers(instruments: seq<Instrument>, vols: map<string, real>, x: string)
    ensures x in Liquid(instruments, vols) <==>
              exists i :: 0 <= i < |instruments| && instruments[i].symbol == x && Eligible(instruments[i], vols)
    decreases |instruments|
  {
    if instruments != [] {
      var init := instruments[..|instruments| - 1];
      LiquidMembers(init, vols, x);
      assert forall i :: 0 <= i < |init| ==> init[i] == instruments[i];
    }
  }

  /** The appending loop of the refresher over the instrument list. */
  method SelectLiquid(data: MarketData) returns (symbols: seq<string>)
    ensures symbols == Liquid(data.instruments, Volumes(data.tickers))
  {
    var vols := Volumes(data.tickers);
    symbols := [];
    for i := 0 to |data.instruments|
      invariant symbols == Liquid(data.instruments[..i], vols)
    {
      var inst := data.instruments[i];
      assert data.instruments[..i + 1][..i] == data.instruments[..i];
      if inst.contractType == "PERPETUAL" && inst.quoteAsset == "USDT"
         && inst.status == "TRADING" && VolumeOf(vols, inst.symbol) >= LiquidityFloor
      {
        symbols := symbols + [inst.symbol];
      }
    }
    assert data.instruments[..|data.instruments|] == data.instruments;
  }

  /** The new watch set: `set(symbols)` of the selected list. */
  function LiquidSet(data: MarketData): (r: set<string>)
    ensures forall x :: x in r ==> x in Volumes(data.tickers) && Volumes(data.tickers)[x] >= LiquidityFloor
    ensures |data.instruments| == 0 ==> r == {}
  {
    set x | x in Liquid(data.instruments, Volumes(data.tickers))
  }

  /** The new watch set is exactly the set of symbols of instruments that are perpetual,
      quoted in USDT, trading, and have a 24-hour quote volume of at least 20,000,000,
      a symbol missing from the ticker list counting as volume 0. */
  lemma LiquidSetExactly(data: MarketData, x: string)
    ensures x in LiquidSet(data) <==>
              exists i :: 0 <= i < |data.instruments| && data.instruments[i].symbol == x
                && data.instruments[i].contractType == "PERPETUAL"
                && data.instruments[i].quoteAsset == "USDT"
                && data.instruments[i].status == "TRADING"
                && VolumeOf(Volumes(data.tickers), x) >= LiquidityFloor
  {
    LiquidMembers(data.instruments, Volumes(data.tickers), x);
  }

  /** A listed perpetual USDT contract with 25,000,000 volume is kept and one with
      1,000,000 volume is dropped. */
  lemma LiquidSetExample()
    ensures var data := MarketData(
              [Instrument("DOGEUSDT", "PERPETUAL", "USDT", "TRADING"),
               Instrument("XYZUSDT", "PERPETUAL", "USDT", "TRADING")],
              [Ticker("DOGEUSDT", 25000000.0), Ticker("XYZUSDT", 1000000.0)]);
            LiquidSet(data) == {"DOGEUSDT"}
  {
    var data := MarketData(
              [Instrument("DOGEUSDT", "PERPETUAL", "USDT", "TRADING"),
               Instrument("XYZUSDT", "PERPETUAL", "USDT", "TRADING")],
              [Ticker("DOGEUSDT", 25000000.0), Ticker("XYZUSDT", 1000000.0)]);
    var vols := Volumes(data.tickers);
    assert data.tickers[..1] == [Ticker("DOGEUSDT", 25000000.0)];
    assert vols == map["DOGEUSDT" := 25000000.0, "XYZUSDT" := 1000000.0];
    assert data.instruments[..1] == [Instrument("DOGEUSDT", "PERPETUAL", "USDT", "TRADING")];
    assert Liquid(data.instruments, vols) == ["DOGEUSDT"];
  }
}
