/** The exchange adapters as objects: each owns one connection, forwards its open event and
    decoded records to the dashboard, and sends its subscription once the socket is open.
    The socket itself is not modelled; its events arrive as method calls. */
module Adapters {
  import opened Wrappers
  import opened Types
  import opened Exchange
  import opened Aggregation
  import opened Dashboard

  /** What an adapter has done, in order: called `onOpen`, sent a payload, or forwarded a
      record to `onMessage`. */
  datatype Event = OpenNotified | Sent(payload: Payload) | Forwarded(record: PriceData)

  function SentEvents(ps: seq<Payload>): (r: seq<Event>)
    ensures |r| == |ps| && forall i :: 0 <= i < |ps| ==> r[i] == Sent(ps[i])
  {
    if ps == [] then [] else [Sent(ps[0])] + SentEvents(ps[1..])
  }

  /** The open handler's effects: `onOpen` first, then the exchange's subscription, if any. */
  function OpenEvents(e: ExchangeName): seq<Event> {
    [OpenNotified] + SentEvents(SubscribePayloads(e))
  }

  /** Binance only notifies; Coinbase and OKX notify and then send one subscription. */
  lemma OpenEventsOrder(e: ExchangeName)
    ensures OpenEvents(e)[0] == OpenNotified
    ensures e == Binance ==> OpenEvents(e) == [OpenNotified]
    ensures e != Binance ==> |OpenEvents(e)| == 2 && OpenEvents(e)[1] == Sent(SubscribePayloads(e)[0])
  {
  }

  class Connection {
    const exchange: ExchangeName
    const app: App
    var log: seq<Event>
    var closed: bool

    /** The URL the socket is opened on; it depends on the exchange alone. */
    function Address(): string {
      Url(exchange)
    }

    /** `setup…WS`: open a socket to the exchange's URL with both handlers attached. */
    constructor Setup(exchange: ExchangeName, app: App)
      ensures this.exchange == exchange && this.app == app
      ensures log == [] && !closed
    {
      this.exchange := exchange;
      this.app := app;
      log := [];
      closed := false;
    }

    /** `ws.onopen`. A closed socket delivers no more events. */
    method OnOpen()
      requires app.Valid()
      modifies this, app
      ensures app.Valid() && closed == old(closed)
      ensures !closed ==> app.connectionStatus == old(app.connectionStatus)[exchange := true]
      ensures !closed ==> log == old(log) + OpenEvents(exchange)
      ensures closed ==> app.connectionStatus == old(app.connectionStatus) && log == old(log)
      ensures app.prices == old(app.prices) && app.watchlist == old(app.watchlist)
      ensures app.storage == old(app.storage) && app.selectedCurrency == old(app.selectedCurrency)
    {
      if closed {
        return;
      }
      app.MarkConnected(exchange);
      log := log + [OpenNotified];
      var payloads := SubscribePayloads(exchange);
      if |payloads| > 0 {
        log := log + [Sent(payloads[0])];
      }
      assert SentEvents(payloads) == if |payloads| > 0 then [Sent(payloads[0])] else [];
    }

    /** `ws.onmessage`: decode, and forward the record if there is one. */
    method OnMessage(m: Message, now: int)
      requires app.Valid() && Source(m) == exchange
      modifies this, app
      ensures app.Valid() && closed == old(closed)
      ensures !closed && Decode(m, now).Some? ==>
        app.prices == UpdatePrices(old(app.prices), Decode(m, now).value) &&
        log == old(log) + [Forwarded(Decode(m, now).value)]
      ensures closed || Decode(m, now).None? ==> app.prices == old(app.prices) && log == old(log)
      ensures app.connectionStatus == old(app.connectionStatus) && app.watchlist == old(app.watchlist)
      ensures app.storage == old(app.storage) && app.selectedCurrency == old(app.selectedCurrency)
    {
      if closed {
        return;
      }
      var d := Decode(m, now);
      if d.Some? {
        app.UpdatePrice(d.value);
        log := log + [Forwarded(d.value)];
      }
    }

    /** The teardown handle `() => ws.close()`; calling it again changes nothing. */
    method Close()
      modifies this
      ensures closed && log == old(log)
    {
      closed := true;
    }
  }

  /** The mount effect: one adapter per exchange, all reporting to the same dashboard. */
  method StartFeeds(app: App) returns (feeds: seq<Connection>)
    ensures |feeds| == |AllExchanges|
    ensures forall i :: 0 <= i < |feeds| ==>
      fresh(feeds[i]) && feeds[i].exchange == AllExchanges[i] && feeds[i].app == app &&
      feeds[i].log == [] && !feeds[i].closed
  {
    var binance := new Connection.Setup(Binance, app);
    var coinbase := new Connection.Setup(Coinbase, app);
    var okx := new Connection.Setup(Okx, app);
    feeds := [binance, coinbase, okx];
  }

  /** The effect's cleanup: close all three connections. */
  method StopFeeds(feeds: seq<Connection>)
    modifies set i | 0 <= i < |feeds| :: feeds[i]
    ensures forall i :: 0 <= i < |feeds| ==> feeds[i].closed && feeds[i].log == old(feeds[i].log)
  {
    for k := 0 to |feeds|
      invariant forall i :: 0 <= i < k ==> feeds[i].closed
      invariant forall i :: 0 <= i < |feeds| ==> feeds[i].log == old(feeds[i].log)
    {
      feeds[k].Close();
    }
  }
}
