/**
 * The HTTP handler: routes the `action` query parameter to predict,
 * history or status and assembles the response. Market-data fetches are
 * given as an `Option` per symbol, the storage file's content as an
 * `Option` (missing or unparsable is `None`), and the random draws per
 * symbol.
 */
module Handler {
  import opened Wrappers
  import opened Engine
  import opened History

  /** The configured symbols, in configuration order. */
  const Symbols: seq<string> := ["BTC", "ETH", "SOL"]

  const ConfidenceThreshold: real := 0.70

  /** How many of the most recent entries the history action returns. */
  const HistoryPageSize: nat := 20

  datatype Metadata = Metadata(confidenceThreshold: real, model: string, fallback: string)

  const PredictMetadata: Metadata := Metadata(ConfidenceThreshold, "MiniMax-M2.1", "rule-based")

  /** The JSON bodies the handler sends; `Failed` carries the HTTP status. */
  datatype Response =
    | Predictions(predictions: map<string, Signal>, metadata: Metadata)
    | SignalHistory(history: seq<Entry>, winRate: WinRate)
    | StatusReport(status: string, winRate: WinRate, totalSignals: nat)
    | Failed(code: nat, message: string)

  /** `req.query.action || 'predict'`: an absent or empty parameter means predict. */
  function ActionOf(query: Option<string>): (action: string)
    ensures query.None? ==> action == "predict"
    ensures query == Some("") ==> action == "predict"
    ensures query.Some? && query.value != "" ==> action == query.value
    ensures action != ""
  {
    match query
    case None => "predict"
    case Some(a) => if a == "" then "predict" else a
  }

  /** A fetch that yields a snapshot the engine can turn into a prediction. */
  predicate Usable(fetched: Option<Snapshot>) {
    fetched.Some? && |fetched.value.priceHistory| > 0
  }

  /**
   * The predict action: one prediction per configured symbol whose market
   * data arrived and whose prediction did not fail; other symbols are left
   * out of the result without notice.
   */
  method PredictAll(fetch: string -> Option<Snapshot>, random: string -> DrawSet)
    returns (results: map<string, Signal>)
    ensures results.Keys == set s | s in Symbols && Usable(fetch(s))
    ensures forall s :: s in results ==> results[s] == PredictionOf(s, fetch(s).value, random(s))
    ensures (forall s :: s in Symbols ==> Usable(fetch(s))) ==> results.Keys == {"BTC", "ETH", "SOL"}
  {
    results := map[];
    for i := 0 to |Symbols|
      invariant forall s :: s in results <==> s in Symbols[..i] && Usable(fetch(s))
      invariant forall s :: s in results ==> Usable(fetch(s)) && results[s] == PredictionOf(s, fetch(s).value, random(s))
    {
      var symbol := Symbols[i];
      var data := fetch(symbol);
      assert Symbols[..i + 1] == Symbols[..i] + [symbol];
      if data.Some? {
        var prediction := RuleBasedPrediction(symbol, data.value, random(symbol));
        if prediction.Some? {
          results := results[symbol := prediction.value];
        }
      }
    }
    assert Symbols[..|Symbols|] == Symbols;
  }

  /**
   * The exported handler. `file` is what the storage file reads as, `fetch`
   * the market data each symbol's fetch returns, `random` the draws each
   * symbol's prediction uses.
   */
  method Handle(query: Option<string>, file: Option<seq<Entry>>,
                fetch: string -> Option<Snapshot>, random: string -> DrawSet)
    returns (response: Response)
    ensures ActionOf(query) == "predict" ==>
      response.Predictions? && response.metadata == PredictMetadata
      && response.predictions.Keys == (set s | s in Symbols && Usable(fetch(s)))
      && forall s :: s in response.predictions ==>
           response.predictions[s] == PredictionOf(s, fetch(s).value, random(s))
    ensures ActionOf(query) == "history" ==>
      response.SignalHistory?
      && response.history == SliceFromEnd(LoadHistory(file), HistoryPageSize)
      && |response.history| == (if |LoadHistory(file)| < HistoryPageSize then |LoadHistory(file)| else HistoryPageSize)
      && response.winRate == CalculateWinRate(LoadHistory(file))
    ensures ActionOf(query) == "status" ==>
      response == StatusReport("active", CalculateWinRate(LoadHistory(file)), |LoadHistory(file)|)
    ensures ActionOf(query) !in {"predict", "history", "status"} ==>
      response == Failed(400, "Invalid action")
  {
    var action := ActionOf(query);
    if action == "predict" {
      var results := PredictAll(fetch, random);
      response := Predictions(results, PredictMetadata);
    } else if action == "history" {
      var history := LoadHistory(file);
      var winRate := CalculateWinRate(history);
      response := SignalHistory(SliceFromEnd(history, HistoryPageSize), winRate);
    } else if action == "status" {
      var history := LoadHistory(file);
      var winRate := CalculateWinRate(history);
      response := StatusReport("active", winRate, |history|);
    } else {
      response := Failed(400, "Invalid action");
    }
  }
}
