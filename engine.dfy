/**
 * The rule-based prediction engine: classifies momentum from the trailing
 * price window and sentiment from the 24h change, then builds one prediction
 * per timeframe (direction, probability, target price, stop loss,
 * confidence). Prices are exact reals; the three `Math.random()` draws of a
 * timeframe are passed in as a `Draws` value.
 */
module Engine {
  import opened Wrappers

  /** The configured prediction timeframes, in configuration order. */
  datatype Timeframe = M30 | H1 | H24

  const Timeframes: seq<Timeframe> := [M30, H1, H24]

  datatype Momentum = StrongUp | StrongDown | Neutral

  datatype Sentiment = Bullish | Bearish | Calm

  /** SIDEWAYS is part of the record's vocabulary but the rules never choose it. */
  datatype Direction = Up | Down | Sideways

  /** One market snapshot as fetched for a symbol (oldest price first). */
  datatype Snapshot = Snapshot(
    price: real,
    change24h: real,
    volume: real,
    high24h: real,
    low24h: real,
    priceHistory: seq<real>)

  /** The prediction record of one timeframe. */
  datatype Horizon = Horizon(
    direction: Direction,
    probability: real,
    targetPrice: real,
    stopLoss: real,
    confidence: real)

  /** A prediction for one symbol: one `Horizon` per timeframe and the sentiment label. */
  datatype Signal = Signal(
    symbol: string,
    predictions: map<Timeframe, Horizon>,
    sentiment: Sentiment)

  /**
   * The random draws of one timeframe: `coin` picks the direction under
   * neutral momentum, `prob` jitters the probability, `conf` the confidence.
   * Under strong momentum the source draws no coin, so `coin` is unused.
   */
  datatype Draws = Draws(coin: real, prob: real, conf: real)

  /** The draws of all three timeframes of one symbol. */
  datatype DrawSet = DrawSet(m30: Draws, h1: Draws, h24: Draws) {
    function At(tf: Timeframe): Draws {
      match tf
      case M30 => m30
      case H1 => h1
      case H24 => h24
    }
  }

  /** A value `Math.random()` can return. */
  predicate UnitDraw(x: real) { 0.0 <= x < 1.0 }

  predicate ValidDraws(d: Draws) { UnitDraw(d.coin) && UnitDraw(d.prob) && UnitDraw(d.conf) }

  predicate ValidDrawSet(ds: DrawSet) { forall tf: Timeframe :: ValidDraws(ds.At(tf)) }

  const MomentumThreshold: real := 0.01
  const ProbabilityCap: real := 0.85

  function Min(a: real, b: real): real { if a <= b then a else b }

  /**
   * Momentum of a price history. Reading before the start of a history
   * shorter than six points yields NaN, and a zero base price divides by
   * zero (+/-Infinity, or NaN for 0/0); NaN compares false both ways.
   */
  function MomentumOf(h: seq<real>): (m: Momentum)
    ensures |h| < 6 ==> m == Neutral
    ensures |h| >= 6 && h[|h| - 6] != 0.0 ==>
      (m == StrongUp <==> RecentChange(h) > 0.01) &&
      (m == StrongDown <==> RecentChange(h) < -0.01) &&
      (m == Neutral <==> -0.01 <= RecentChange(h) <= 0.01)
    ensures |h| >= 6 && h[|h| - 6] == 0.0 ==>
      (m == StrongUp <==> h[|h| - 1] > 0.0) && (m == StrongDown <==> h[|h| - 1] < 0.0)
  {
    if |h| < 6 then Neutral else MomentumFrom(h[|h| - 1], h[|h| - 6])
  }

  /** `(last - base) / base` against the 1% threshold, with JavaScript's division by zero. */
  function MomentumFrom(last: real, base: real): Momentum {
    if base == 0.0 then
      (if last > 0.0 then StrongUp else if last < 0.0 then StrongDown else Neutral)
    else
      var recentChange := (last - base) / base;
      if recentChange > MomentumThreshold then StrongUp
      else if recentChange < -MomentumThreshold then StrongDown
      else Neutral
  }

  /** The relative change over the trailing six-point window. */
  function RecentChange(h: seq<real>): real
    requires |h| >= 6 && h[|h| - 6] != 0.0
  {
    (h[|h| - 1] - h[|h| - 6]) / h[|h| - 6]
  }

  function Scale(h: seq<real>, c: real): (r: seq<real>)
    ensures |r| == |h| && forall i :: 0 <= i < |h| ==> r[i] == c * h[i]
  {
    seq(|h|, i requires 0 <= i < |h| => c * h[i])
  }

  /** Quoting every price in another positive unit does not change the momentum. */
  lemma MomentumScaleInvariant(h: seq<real>, c: real)
    requires c > 0.0
    ensures MomentumOf(Scale(h, c)) == MomentumOf(h)
  {
    var s := Scale(h, c);
    if |h| >= 6 {
      var last, base := h[|h| - 1], h[|h| - 6];
      assert s[|s| - 1] == c * last && s[|s| - 6] == c * base;
      ScaledMomentum(last, base, c);
    }
  }

  lemma ScaledMomentum(last: real, base: real, c: real)
    requires c > 0.0
    ensures MomentumFrom(c * last, c * base) == MomentumFrom(last, base)
  {
    if base != 0.0 {
      assert c * base != 0.0;
      assert c * last - c * base == c * (last - base);
      DivCancel(c, last - base, base);
      assert (c * last - c * base) / (c * base) == (last - base) / base;
    } else {
      assert c * last > 0.0 <==> last > 0.0;
      assert c * last < 0.0 <==> last < 0.0;
    }
  }

  lemma DivCancel(c: real, x: real, y: real)
    requires c != 0.0 && y != 0.0
    ensures (c * x) / (c * y) == x / y
  {
    assert (x / y) * (c * y) == c * x;
  }

  /**
   * Sentiment from the 24h percent change: above 2 is BULLISH, below -2 is
   * BEARISH, anything else NEUTRAL (here `Calm`).
   */
  function SentimentOf(change24h: real): (s: Sentiment)
    ensures s == Bullish <==> change24h > 2.0
    ensures s == Bearish <==> change24h < -2.0
    ensures s == Calm <==> -2.0 <= change24h <= 2.0
  {
    if change24h > 2.0 then Bullish
    else if change24h < -2.0 then Bearish
    else Calm
  }

  /** Sentiment never falls as the 24h change rises. */
  lemma SentimentMonotone(a: real, b: real)
    requires a <= b
    ensures SentimentOf(a) == Bullish ==> SentimentOf(b) == Bullish
    ensures SentimentOf(b) == Bearish ==> SentimentOf(a) == Bearish
  {
  }

  /** Target multiplier for an UP prediction. */
  function UpMultiplier(tf: Timeframe): real {
    match tf
    case M30 => 1.005
    case H1 => 1.01
    case H24 => 1.03
  }

  /** Target multiplier for a DOWN prediction. */
  function DownMultiplier(tf: Timeframe): real {
    match tf
    case M30 => 0.995
    case H1 => 0.99
    case H24 => 0.97
  }

  /** The prediction of one timeframe, given the momentum, the price and the draws. */
  function HorizonFor(tf: Timeframe, m: Momentum, price: real, d: Draws): (r: Horizon)
    ensures r.direction != Sideways
    ensures m == StrongUp ==> r.direction == Up
    ensures m == StrongDown ==> r.direction == Down
    ensures m == Neutral ==> (r.direction == Up <==> d.coin > 0.5)
    ensures r.direction == Up ==> r.targetPrice == price * UpMultiplier(tf) && r.stopLoss == price * 0.98
    ensures r.direction == Down ==> r.targetPrice == price * DownMultiplier(tf) && r.stopLoss == price * 1.02
    ensures r.probability <= ProbabilityCap
    ensures ValidDraws(d) && m != Neutral ==> 0.55 <= r.probability < 0.65
    ensures ValidDraws(d) && m == Neutral ==> 0.50 <= r.probability < 0.55
    ensures ValidDraws(d) ==> 0.65 <= r.confidence < 0.85
    ensures price > 0.0 && r.direction == Up ==> r.stopLoss < price < r.targetPrice
    ensures price > 0.0 && r.direction == Down ==> r.targetPrice < price < r.stopLoss
  {
    var direction :=
      match m
      case StrongUp => Up
      case StrongDown => Down
      case Neutral => if d.coin > 0.5 then Up else Down;
    var probability := if m == Neutral then 0.50 + d.prob * 0.05 else 0.55 + d.prob * 0.1;
    var target := if direction == Up then price * UpMultiplier(tf) else price * DownMultiplier(tf);
    var stop := price * (if direction == Up then 0.98 else 1.02);
    Horizon(direction, Min(probability, ProbabilityCap), target, stop, 0.65 + d.conf * 0.2)
  }

  /** For a positive price, longer timeframes set targets farther from the price. */
  lemma TargetsWidenWithTimeframe(m: Momentum, price: real, d30: Draws, d1: Draws, d24: Draws)
    requires price > 0.0
    requires HorizonFor(M30, m, price, d30).direction == HorizonFor(H1, m, price, d1).direction
    requires HorizonFor(H1, m, price, d1).direction == HorizonFor(H24, m, price, d24).direction
    ensures var a, b, c := HorizonFor(M30, m, price, d30), HorizonFor(H1, m, price, d1), HorizonFor(H24, m, price, d24);
      if a.direction == Up then a.targetPrice < b.targetPrice < c.targetPrice
      else c.targetPrice < b.targetPrice < a.targetPrice
  {
  }

  /** The prediction the engine computes for `symbol` from `data` and the draws. */
  function PredictionOf(symbol: string, data: Snapshot, draws: DrawSet): (r: Signal)
    ensures r.symbol == symbol
    ensures r.predictions.Keys == {M30, H1, H24}
    ensures r.sentiment == SentimentOf(data.change24h)
  {
    var m := MomentumOf(data.priceHistory);
    Signal(symbol, map tf | tf in Timeframes :: HorizonFor(tf, m, data.price, draws.At(tf)), SentimentOf(data.change24h))
  }

  /**
   * Every record of a prediction built from valid draws is UP or DOWN, has
   * its probability in [0.50, 0.65) (so below the 0.85 cap) and its
   * confidence in [0.65, 0.85).
   */
  lemma PredictionBounds(symbol: string, data: Snapshot, draws: DrawSet)
    requires ValidDrawSet(draws)
    ensures var r := PredictionOf(symbol, data, draws);
      forall tf :: tf in r.predictions ==>
        var p := r.predictions[tf];
        p.direction != Sideways && 0.50 <= p.probability < 0.65 && 0.65 <= p.confidence < 0.85
  {
    var r := PredictionOf(symbol, data, draws);
    forall tf | tf in r.predictions
      ensures var p := r.predictions[tf];
        p.direction != Sideways && 0.50 <= p.probability < 0.65 && 0.65 <= p.confidence < 0.85
    {
      assert ValidDraws(draws.At(tf));
    }
  }

  /**
   * `ruleBasedPrediction`. The volatility helper throws on an empty history
   * (a reduction over an empty window), before any prediction is built; the
   * caller catches that and yields null, which is `None` here.
   */
  method RuleBasedPrediction(symbol: string, data: Snapshot, draws: DrawSet) returns (r: Option<Signal>)
    ensures r.None? <==> |data.priceHistory| == 0
    ensures r.Some? ==> r.value == PredictionOf(symbol, data, draws)
    ensures r.Some? ==> forall tf :: tf in r.value.predictions ==>
      r.value.predictions[tf] == HorizonFor(tf, MomentumOf(data.priceHistory), data.price, draws.At(tf))
  {
    var history := data.priceHistory;
    if |history| == 0 {
      return None;
    }
    var momentum := MomentumOf(history);
    var predictions: map<Timeframe, Horizon> := map[];
    for i := 0 to |Timeframes|
      invariant predictions == map tf | tf in Timeframes[..i] :: HorizonFor(tf, momentum, data.price, draws.At(tf))
    {
      var tf := Timeframes[i];
      predictions := predictions[tf := HorizonFor(tf, momentum, data.price, draws.At(tf))];
    }
    assert Timeframes[..|Timeframes|] == Timeframes;
    var sentiment := SentimentOf(data.change24h);
    r := Some(Signal(symbol, predictions, sentiment));
  }
}
