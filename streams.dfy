/** The subscription the listener opens for the watched symbols (`ws_listener`,
    bot.py:119-124): one kline stream per symbol, joined with '/' into one URL. */
module Streams {
  import opened Wrappers
  import opened Text

  /** The multiplexed stream endpoint, up to the list of stream names. */
  const StreamBase: string := "wss://fstream.binance.com/stream?streams="

  /** `f"{s.lower()}@kline_{timeframe}"`. */
  function StreamName(symbol: string, timeframe: string): (r: string)
    ensures |symbol| < |r| && r[|symbol|..] == "@kline_" + timeframe
    ensures forall k :: 0 <= k < |symbol| ==> r[k] == LowerChar(symbol[k]) && !('A' <= r[k] <= 'Z')
    ensures '/' !in symbol && '/' !in timeframe ==> '/' !in r
  {
    LowerKeepsSlash(symbol);
    Lower(symbol) + "@kline_" + timeframe
  }

  /** The list comprehension over the watched symbols, taken in iteration order. */
  function StreamNames(order: seq<string>, timeframe: string): (names: seq<string>)
    ensures |names| == |order|
    ensures forall i :: 0 <= i < |order| ==> names[i] == StreamName(order[i], timeframe)
  {
    seq(|order|, i requires 0 <= i < |order| => StreamName(order[i], timeframe))
  }

  /** `order` is an iteration order of the set `symbols`: each element exactly once. */
  predicate Enumerates(order: seq<string>, symbols: set<string>) {
    && (forall i, j :: 0 <= i < j < |order| ==> order[i] != order[j])
    && (forall x :: x in order ==> x in symbols)
    && (forall x :: x in symbols ==> x in order)
  }

  /** The URL to connect to, or None when nothing is watched and the listener idles. */
  function Connection(order: seq<string>, timeframe: string): (r: Option<string>)
    ensures r.None? <==> order == []
    ensures r.Some? ==> StartsWith(r.value, StreamBase) && |r.value| > |StreamBase|
  {
    if order == [] then None
    else Some(StreamBase + Join(StreamNames(order, timeframe), '/'))
  }

  /** The listener connects exactly when the watched set is non-empty. */
  lemma ConnectsIffWatching(order: seq<string>, symbols: set<string>, timeframe: string)
    requires Enumerates(order, symbols)
    ensures Connection(order, timeframe).None? <==> symbols == {}
  {
    if order != [] {
      assert order[0] in symbols;
    }
  }

  /** The stream list inside the URL splits back into one `lower(s)@kline_<timeframe>`
      name per watched symbol, in iteration order, provided no symbol and not the
      timeframe contain '/'. */
  lemma {:induction false} ConnectionLists(order: seq<string>, timeframe: string)
    requires order != []
    requires forall i :: 0 <= i < |order| ==> '/' !in order[i]
    requires '/' !in timeframe
    ensures Connection(order, timeframe).Some?
    ensures var url := Connection(order, timeframe).value;
            && |StreamBase| <= |url| && url[..|StreamBase|] == StreamBase
            && Split(url[|StreamBase|..], '/') == StreamNames(order, timeframe)
  {
    var names := StreamNames(order, timeframe);
    var url := StreamBase + Join(names, '/');
    assert url[|StreamBase|..] == Join(names, '/');
    SplitJoin(names, '/');
  }
}
