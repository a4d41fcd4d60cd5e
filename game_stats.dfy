/** Session counters kept by `GameStats`. */
module Statistics {

  /** The values of the five counters of a `GameStats` object at one moment. */
  datatype StatsView = StatsView(shipsLeft: nat, score: nat, level: nat, highScore: nat, gameActive: bool)

  /** What `reset_stats` does to the counters: a new session with every ship, no score, level one. */
  function Reset(v: StatsView, shipLimit: nat): (r: StatsView)
    ensures r.shipsLeft == shipLimit && r.score == 0 && r.level == 1
    ensures r.highScore == v.highScore && r.gameActive == v.gameActive
  {
    v.(shipsLeft := shipLimit, score := 0, level := 1)
  }

  /** Resetting a freshly reset session changes nothing. */
  lemma ResetIdempotent(v: StatsView, shipLimit: nat)
    ensures Reset(Reset(v, shipLimit), shipLimit) == Reset(v, shipLimit)
  {
  }

  class GameStats {
    const shipLimit: nat   // `settings.ship_limit`
    var shipsLeft: nat
    var score: nat
    var level: nat
    var highScore: nat
    var gameActive: bool

    function View(): (v: StatsView)
      reads this
    {
      StatsView(shipsLeft, score, level, highScore, gameActive)
    }

    /** A new session starts reset, inactive, and with no high score. */
    constructor (shipLimit: nat)
      ensures this.shipLimit == shipLimit
      ensures shipsLeft == shipLimit && score == 0 && level == 1
      ensures !gameActive && highScore == 0
    {
      this.shipLimit := shipLimit;
      new;
      ResetStats();
      gameActive := false;
      highScore := 0;
    }

    method ResetStats()
      modifies this
      ensures View() == Reset(old(View()), shipLimit)
    {
      shipsLeft := shipLimit;
      score := 0;
      level := 1;
    }
  }
}
