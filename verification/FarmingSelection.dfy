// Which games card farming may run, in which order, and the list it hands to
// the Steam worker (apps/server/src/farming/controller.ts, filterGames,
// orderGames, updateGames, creditPlaytime and the selection in advance).
module FarmingSelection {
  import opened Numbers
  import opened Results
  import Sorting

  const WARM_MINUTES := 120.0
  const REFUND_MS := 1_209_600_000
  const MS_PER_MINUTE := 60_000
  const MAX_GAMES := 32

  datatype SkipReason = Blacklisted | NotWhitelisted | RefundWindow | PurchaseDateUnknown

  datatype Game = Game(
    appId: nat,
    // Position of the name in the locale's order.
    nameRank: int,
    remainingDrops: nat,
    playtimeMinutes: Option<real>,
    acquiredAt: Option<int>,
    cardAverage: Option<real>,
    skipReason: Option<SkipReason>)

  datatype Order = BadgeOrder | CardValue | DropsDesc | DropsAsc | HoursDesc | AcquiredAsc | ByName

  datatype Config = Config(
    maxConcurrentGames: int,
    whitelist: seq<nat>,
    blacklist: seq<nat>,
    skipRefundable: bool,
    order: Order,
    priority: seq<nat>)

  function Playtime(game: Game): real
  {
    if game.playtimeMinutes.Some? then game.playtimeMinutes.value else 0.0
  }

  // ---- Filtering -------------------------------------------------------------------

  function SkipReasonOf(game: Game, config: Config, now: int): Option<SkipReason>
  {
    if game.appId in config.blacklist then Some(Blacklisted)
    else if config.whitelist != [] && game.appId !in config.whitelist then Some(NotWhitelisted)
    else if !config.skipRefundable || Playtime(game) >= WARM_MINUTES then None
    else if game.acquiredAt.None? || game.acquiredAt.value > now then Some(PurchaseDateUnknown)
    else if now - game.acquiredAt.value <= REFUND_MS then Some(RefundWindow)
    else None
  }

  // The three guards a game has to pass, as the settings describe them.
  predicate PassesGuards(game: Game, config: Config, now: int)
  {
    && game.appId !in config.blacklist
    && (config.whitelist == [] || game.appId in config.whitelist)
    && (config.skipRefundable && Playtime(game) < WARM_MINUTES ==>
          game.acquiredAt.Some? && game.acquiredAt.value <= now && now - game.acquiredAt.value > REFUND_MS)
  }

  lemma SkippedIffGuardFails(game: Game, config: Config, now: int)
    ensures SkipReasonOf(game, config, now).None? <==> PassesGuards(game, config, now)
  {}

  // The reason shown is the first guard that fails: the lists before the refund
  // guard, and an unknown or future purchase before a recent one.
  lemma ReasonNamesGuard(game: Game, config: Config, now: int)
    ensures var reason := SkipReasonOf(game, config, now);
            && (reason == Some(Blacklisted) <==> game.appId in config.blacklist)
            && (reason == Some(NotWhitelisted) <==>
                  game.appId !in config.blacklist && config.whitelist != [] && game.appId !in config.whitelist)
            && (reason == Some(RefundWindow) ==> game.acquiredAt.Some? && 0 <= now - game.acquiredAt.value <= REFUND_MS)
            && (reason == Some(PurchaseDateUnknown) ==> game.acquiredAt.None? || now < game.acquiredAt.value)
            && (reason == Some(RefundWindow) || reason == Some(PurchaseDateUnknown) ==>
                  config.skipRefundable && Playtime(game) < WARM_MINUTES)
  {}

  // Sets the skip reasons in place, game by game.
  method FilterGames(games: seq<Game>, config: Config, now: int) returns (filtered: seq<Game>)
    ensures |filtered| == |games|
    ensures forall k :: 0 <= k < |games| ==> filtered[k] == games[k].(skipReason := SkipReasonOf(games[k], config, now))
  {
    filtered := games;
    for n := 0 to |games|
      invariant |filtered| == |games|
      invariant forall k :: n <= k < |games| ==> filtered[k] == games[k]
      invariant forall k :: 0 <= k < n ==> filtered[k] == games[k].(skipReason := SkipReasonOf(games[k], config, now))
    {
      var game := filtered[n];
      var reason: Option<SkipReason> :=
        if game.appId in config.blacklist then Some(Blacklisted)
        else if |config.whitelist| > 0 && game.appId !in config.whitelist then Some(NotWhitelisted)
        else None;
      if reason.None? && config.skipRefundable && Playtime(game) < WARM_MINUTES {
        reason := if game.acquiredAt.None? || game.acquiredAt.value > now then Some(PurchaseDateUnknown)
                  else if now - game.acquiredAt.value <= REFUND_MS then Some(RefundWindow)
                  else None;
      }
      filtered := filtered[n := game.(skipReason := reason)];
    }
  }

  // ---- Ordering --------------------------------------------------------------------

  // A repeated priority entry counts at its last position.
  function PinOf(priority: seq<nat>, appId: nat): (pin: Option<nat>)
    ensures pin.Some? <==> appId in priority
  {
    if priority == [] then None
    else if priority[|priority| - 1] == appId then Some(|priority| - 1)
    else
      assert priority == priority[..|priority| - 1] + [priority[|priority| - 1]];
      PinOf(priority[..|priority| - 1], appId)
  }

  lemma {:induction false} PinIsAnOccurrence(priority: seq<nat>, appId: nat)
    requires PinOf(priority, appId).Some?
    ensures PinOf(priority, appId).value < |priority| && priority[PinOf(priority, appId).value] == appId
    ensures forall k :: PinOf(priority, appId).value < k < |priority| ==> priority[k] != appId
  {
    if priority[|priority| - 1] != appId {
      PinIsAnOccurrence(priority[..|priority| - 1], appId);
    }
  }

  const LAST := 9_007_199_254_740_991

  // Ascending keys of the strategies.
  function StrategyKey(order: Order, game: Game): real
  {
    match order
    case BadgeOrder => 0.0
    case CardValue => if game.cardAverage.Some? then -game.cardAverage.value else 1.0
    case DropsDesc => -(game.remainingDrops as real)
    case DropsAsc => game.remainingDrops as real
    case HoursDesc => -Playtime(game)
    case AcquiredAsc => (if game.acquiredAt.Some? then game.acquiredAt.value else LAST) as real
    case ByName => game.nameRank as real
  }

  function PinKey(config: Config, game: Game): int
  {
    var pin := PinOf(config.priority, game.appId);
    if pin.Some? then pin.value else LAST
  }

  function BadgeKey(badges: map<nat, nat>, game: Game): int
  {
    if game.appId in badges then badges[game.appId] else LAST
  }

  // Strictly before: pins first, then the strategy, then Steam's badge order.
  predicate Before(left: Game, right: Game, config: Config, badges: map<nat, nat>)
  {
    || PinKey(config, left) < PinKey(config, right)
    || (PinKey(config, left) == PinKey(config, right)
        && (StrategyKey(config.order, left) < StrategyKey(config.order, right)
            || (StrategyKey(config.order, left) == StrategyKey(config.order, right)
                && BadgeKey(badges, left) < BadgeKey(badges, right))))
  }

  function ByOrder(config: Config, badges: map<nat, nat>): (Game, Game) -> bool
  {
    (left, right) => Before(left, right, config, badges)
  }

  ghost predicate Ordered(games: seq<Game>, config: Config, badges: map<nat, nat>)
  {
    Sorting.Ordered(games, ByOrder(config, badges))
  }

  function OrderGames(games: seq<Game>, config: Config, badges: map<nat, nat>): seq<Game>
  {
    Sorting.Sort(games, ByOrder(config, badges))
  }

  lemma ByOrderCompares(config: Config, badges: map<nat, nat>)
    ensures Sorting.Comparator(ByOrder(config, badges))
  {
    hide PinKey, StrategyKey, BadgeKey;
  }

  lemma OrderGamesOrders(games: seq<Game>, config: Config, badges: map<nat, nat>)
    ensures Ordered(OrderGames(games, config, badges), config, badges)
    ensures multiset(OrderGames(games, config, badges)) == multiset(games)
    // Games that are equal in every respect keep the order they had.
    ensures forall game :: Sorting.LevelWith(OrderGames(games, config, badges), game, ByOrder(config, badges))
                        == Sorting.LevelWith(games, game, ByOrder(config, badges))
  {
    forall game
      ensures Sorting.LevelWith(OrderGames(games, config, badges), game, ByOrder(config, badges))
           == Sorting.LevelWith(games, game, ByOrder(config, badges))
    {
      ByOrderCompares(config, badges);
      Sorting.SortIsStable(games, game, ByOrder(config, badges));
    }
    ByOrderCompares(config, badges);
    hide PinKey, StrategyKey, BadgeKey;
    Sorting.SortOrders(games, ByOrder(config, badges));
  }

  // What each order promises of two games of which the first is listed ahead.
  predicate InOrder(order: Order, ahead: Game, behind: Game)
  {
    match order
    case BadgeOrder => true
    case CardValue =>
      // Dearer cards first, and a game without a price after all that have one.
      behind.cardAverage.Some? && behind.cardAverage.value >= 0.0 ==>
        ahead.cardAverage.Some? && ahead.cardAverage.value >= behind.cardAverage.value
    case DropsDesc => ahead.remainingDrops >= behind.remainingDrops
    case DropsAsc => ahead.remainingDrops <= behind.remainingDrops
    case HoursDesc => Playtime(ahead) >= Playtime(behind)
    case AcquiredAsc =>
      // Older purchases first, and unknown dates after all known ones.
      behind.acquiredAt.Some? && behind.acquiredAt.value < LAST ==>
        ahead.acquiredAt.Some? && ahead.acquiredAt.value <= behind.acquiredAt.value
    case ByName => ahead.nameRank <= behind.nameRank
  }

  // The two count as equal under the order.
  predicate Level(order: Order, a: Game, b: Game)
  {
    match order
    case BadgeOrder => true
    case CardValue => a.cardAverage == b.cardAverage
    case DropsDesc => a.remainingDrops == b.remainingDrops
    case DropsAsc => a.remainingDrops == b.remainingDrops
    case HoursDesc => Playtime(a) == Playtime(b)
    case AcquiredAsc => a.acquiredAt == b.acquiredAt
    case ByName => a.nameRank == b.nameRank
  }

  // Of any two games of the ordered list: a pinned one is ahead of an unpinned
  // one and pins keep their order; two unpinned ones are in the order chosen, and
  // those level in it as Steam's badge pages list them.
  lemma ListedInOrder(games: seq<Game>, config: Config, badges: map<nat, nat>, i: nat, j: nat)
    requires |config.priority| < LAST && (forall appId :: appId in badges ==> badges[appId] < LAST)
    requires i < j < |OrderGames(games, config, badges)|
    ensures var ahead, behind := OrderGames(games, config, badges)[i], OrderGames(games, config, badges)[j];
            && (behind.appId in config.priority ==>
                  && ahead.appId in config.priority
                  && PinOf(config.priority, ahead.appId).value <= PinOf(config.priority, behind.appId).value)
            && (ahead.appId !in config.priority ==>
                  && InOrder(config.order, ahead, behind)
                  && (Level(config.order, ahead, behind) && behind.appId in badges ==>
                        ahead.appId in badges && badges[ahead.appId] <= badges[behind.appId]))
  {
    var listed := OrderGames(games, config, badges);
    OrderGamesOrders(games, config, badges);
    var ahead, behind := listed[i], listed[j];
    assert !Before(behind, ahead, config, badges);
    if behind.appId in config.priority { PinIsAnOccurrence(config.priority, behind.appId); }
    if ahead.appId in config.priority { PinIsAnOccurrence(config.priority, ahead.appId); }
    hide PinOf, OrderGames;
  }

  // ---- Selecting -------------------------------------------------------------------

  function Filter(games: seq<Game>, keep: Game -> bool): seq<Game>
  {
    if games == [] then []
    else (if keep(games[0]) then [games[0]] else []) + Filter(games[1..], keep)
  }

  lemma {:induction false} FilterKeeps(games: seq<Game>, keep: Game -> bool)
    ensures |Filter(games, keep)| <= |games|
    ensures forall game :: game in Filter(games, keep) <==> game in games && keep(game)
  {
    if games != [] {
      FilterKeeps(games[1..], keep);
      assert games == [games[0]] + games[1..];
    }
  }

  // The first kept game stands before every other kept one.
  lemma {:induction false} FilterKeepsOrdered(games: seq<Game>, keep: Game -> bool, config: Config, badges: map<nat, nat>)
    requires Ordered(games, config, badges)
    ensures Ordered(Filter(games, keep), config, badges)
  {
    hide Before;
    if games != [] {
      FilterKeepsOrdered(games[1..], keep, config, badges);
      FilterKeeps(games[1..], keep);
      var rest := Filter(games[1..], keep);
      forall j | 0 <= j < |rest|
        ensures !Before(rest[j], games[0], config, badges)
      {
        assert rest[j] in games[1..];
      }
    }
  }

  predicate IsEligible(game: Game) { game.skipReason.None? && game.remainingDrops > 0 }

  predicate IsWarming(game: Game) { Playtime(game) < WARM_MINUTES }

  // Never more than the session can run.
  function Limit(config: Config, gameLimit: int): nat
  {
    var smallest := Min(MAX_GAMES, Min(config.maxConcurrentGames, gameLimit));
    if smallest < 0 then 0 else smallest
  }

  function Take(games: seq<Game>, count: nat): seq<Game>
  {
    if |games| <= count then games else games[..count]
  }

  datatype Selection = Selection(games: seq<Game>, warmingUp: bool)

  // games are filtered and ordered.
  function Select(games: seq<Game>, config: Config, gameLimit: int): Selection
  {
    var eligible := Filter(games, IsEligible);
    var warming := Filter(eligible, IsWarming);
    var limit := Limit(config, gameLimit);
    var pulled := eligible != [] && eligible[0].appId in config.priority;
    var warmingUp := !pulled && warming != [];
    Selection(
      if pulled then Take([eligible[0]], limit)
      else if warmingUp then Take(warming, limit)
      else Take(eligible, Min(1, limit)),
      warmingUp)
  }

  // A game of the list after filtering: it has drops left and passes the guards.
  predicate Farmable(game: Game, config: Config, now: int)
  {
    game.remainingDrops > 0 && PassesGuards(game, config, now)
  }

  ghost predicate Filtered(games: seq<Game>, config: Config, now: int)
  {
    forall game :: game in games ==> game.skipReason == SkipReasonOf(game, config, now)
  }

  // No farmable game is pinned earlier than this one.
  ghost predicate FirstPinned(game: Game, games: seq<Game>, config: Config, now: int)
  {
    && game in games && Farmable(game, config, now) && game.appId in config.priority
    && forall other :: other in games && Farmable(other, config, now) && other.appId in config.priority ==>
         PinOf(config.priority, game.appId).value <= PinOf(config.priority, other.appId).value
  }

  ghost predicate AnyPinned(games: seq<Game>, config: Config, now: int)
  {
    exists game :: game in games && Farmable(game, config, now) && game.appId in config.priority
  }

  ghost predicate AnyWarming(games: seq<Game>, config: Config, now: int)
  {
    exists game :: game in games && Farmable(game, config, now) && IsWarming(game)
  }

  lemma EligibleIffFarmable(games: seq<Game>, config: Config, now: int)
    requires Filtered(games, config, now)
    ensures forall game :: game in Filter(games, IsEligible) <==> game in games && Farmable(game, config, now)
  {
    FilterKeeps(games, IsEligible);
    forall game | game in games
      ensures IsEligible(game) <==> Farmable(game, config, now)
    {
      SkippedIffGuardFails(game, config, now);
    }
  }

  // What reaches the Steam worker fits the limits and only holds farmable
  // games; it is empty only when nothing may run.
  lemma SelectionIsFarmable(games: seq<Game>, config: Config, gameLimit: int, now: int)
    requires Filtered(games, config, now)
    ensures var chosen := Select(games, config, gameLimit).games;
            && |chosen| <= Limit(config, gameLimit) <= MAX_GAMES
            && (forall game :: game in chosen ==> game in games && Farmable(game, config, now))
            && (chosen == [] <==> Limit(config, gameLimit) == 0
                                  || forall game :: game in games ==> !Farmable(game, config, now))
  {
    hide Limit, Farmable;
    var eligible := Filter(games, IsEligible);
    EligibleIffFarmable(games, config, now);
    FilterKeeps(eligible, IsWarming);
    LimitAtMost32(config, gameLimit);
    SelectionIsPrefix(games, config, gameLimit);
    assert eligible != [] ==> eligible[0] in eligible;
  }

  // A pinned game runs alone, and first by priority. Otherwise the list is a
  // batch of games still warming up or, when none is left, one game past it.
  lemma SelectionObeysPinsAndWarmUp(games: seq<Game>, config: Config, badges: map<nat, nat>, gameLimit: int, now: int)
    requires Ordered(games, config, badges) && Filtered(games, config, now) && |config.priority| < LAST
    requires Select(games, config, gameLimit).games != []
    ensures var selection := Select(games, config, gameLimit);
            if AnyPinned(games, config, now)
            then |selection.games| == 1 && FirstPinned(selection.games[0], games, config, now)
            else if AnyWarming(games, config, now)
            then selection.warmingUp && forall game :: game in selection.games ==> IsWarming(game)
            else !selection.warmingUp && |selection.games| == 1 && !IsWarming(selection.games[0])
  {
    hide Before, Limit, Farmable, PinOf;
    var eligible := Filter(games, IsEligible);
    var warming := Filter(eligible, IsWarming);
    EligibleIffFarmable(games, config, now);
    FilterKeeps(eligible, IsWarming);
    FilterKeepsOrdered(games, IsEligible, config, badges);
    PinnedFirst(eligible, config, badges);
    assert eligible != [] ==> eligible[0] in eligible;
    assert warming != [] ==> warming[0] in warming;
    var selection := Select(games, config, gameLimit);
    if AnyPinned(games, config, now) {
      assert selection.games == [eligible[0]];
    } else if AnyWarming(games, config, now) {
      assert selection.games == Take(warming, Limit(config, gameLimit));
    } else {
      assert selection.games == [eligible[0]];
    }
  }

  // Filtering, ordering and selecting as one stretch of advance: whatever the
  // games were, what is chosen among them obeys all the rules at once.
  method ChooseGames(games: seq<Game>, config: Config, badges: map<nat, nat>, gameLimit: int, now: int)
    returns (listed: seq<Game>, selection: Selection)
    requires |config.priority| < LAST
    ensures multiset(listed) == multiset(Judged(games, config, now))
    ensures Ordered(listed, config, badges) && Filtered(listed, config, now)
    ensures |selection.games| <= Limit(config, gameLimit) <= MAX_GAMES
    ensures forall game :: game in selection.games ==> exists g :: g in games && Farmable(g, config, now) && game == g.(skipReason := None)
    ensures selection.games == [] <==> Limit(config, gameLimit) == 0 || forall g :: g in games ==> !Farmable(g, config, now)
    ensures selection.games != [] ==>
              if AnyPinned(listed, config, now)
              then |selection.games| == 1 && FirstPinned(selection.games[0], listed, config, now)
              else if AnyWarming(listed, config, now)
              then selection.warmingUp && forall game :: game in selection.games ==> IsWarming(game)
              else !selection.warmingUp && |selection.games| == 1 && !IsWarming(selection.games[0])
  {
    var filtered := FilterGames(games, config, now);
    assert filtered == Judged(games, config, now);
    listed := OrderGames(filtered, config, badges);
    OrderGamesOrders(filtered, config, badges);
    ListedAreJudged(games, listed, config, now);
    selection := Select(listed, config, gameLimit);
    SelectionIsFarmable(listed, config, gameLimit, now);
    hide Ordered, Farmable, AnyPinned, AnyWarming, FirstPinned, Limit, Select;
    if selection.games != [] {
      SelectionObeysPinsAndWarmUp(listed, config, badges, gameLimit, now);
    }
  }

  // The games with the reasons the filter sets.
  function Judged(games: seq<Game>, config: Config, now: int): (r: seq<Game>)
    ensures |r| == |games| && forall k :: 0 <= k < |games| ==> r[k] == games[k].(skipReason := SkipReasonOf(games[k], config, now))
  {
    seq(|games|, k requires 0 <= k < |games| => games[k].(skipReason := SkipReasonOf(games[k], config, now)))
  }

  lemma ListedAreJudged(games: seq<Game>, listed: seq<Game>, config: Config, now: int)
    requires multiset(listed) == multiset(Judged(games, config, now))
    ensures Filtered(listed, config, now)
    ensures forall game :: game in listed && Farmable(game, config, now) ==>
              exists g :: g in games && Farmable(g, config, now) && game == g.(skipReason := None)
    ensures (exists game :: game in listed && Farmable(game, config, now)) <==> exists g :: g in games && Farmable(g, config, now)
  {
    var judged := Judged(games, config, now);
    forall game | game in listed
      ensures game.skipReason == SkipReasonOf(game, config, now)
      ensures Farmable(game, config, now) ==> exists g :: g in games && Farmable(g, config, now) && game == g.(skipReason := None)
    {
      assert game in multiset(judged);
      var k :| 0 <= k < |judged| && judged[k] == game;
      SkippedIffGuardFails(games[k], config, now);
      assert games[k] in games;
    }
    if g :| g in games && Farmable(g, config, now) {
      var k :| 0 <= k < |games| && games[k] == g;
      assert judged[k] in multiset(judged) && judged[k] in multiset(listed);
      assert judged[k] in listed && Farmable(judged[k], config, now);
    }
  }

  // The limit is the smallest of the three, and no less than zero.
  lemma LimitIsSmallest(config: Config, gameLimit: int)
    ensures var limit := Limit(config, gameLimit);
            && (0 < limit ==> limit <= MAX_GAMES && limit <= config.maxConcurrentGames && limit <= gameLimit)
            && (limit == MAX_GAMES || limit == 0 || limit == config.maxConcurrentGames || limit == gameLimit)
            && (limit == 0 <==> config.maxConcurrentGames <= 0 || gameLimit <= 0)
  {}

  lemma LimitAtMost32(config: Config, gameLimit: int)
    ensures Limit(config, gameLimit) <= MAX_GAMES
  {}

  // In an ordered list the head carries the smallest pin, if any game is pinned.
  lemma PinnedFirst(eligible: seq<Game>, config: Config, badges: map<nat, nat>)
    requires Ordered(eligible, config, badges) && |config.priority| < LAST
    ensures eligible != [] ==> forall other :: other in eligible && other.appId in config.priority ==>
              && eligible[0].appId in config.priority
              && PinOf(config.priority, eligible[0].appId).value <= PinOf(config.priority, other.appId).value
  {
    if eligible != [] {
      forall other | other in eligible && other.appId in config.priority
        ensures && eligible[0].appId in config.priority
                && PinOf(config.priority, eligible[0].appId).value <= PinOf(config.priority, other.appId).value
      {
        var j :| 0 <= j < |eligible| && eligible[j] == other;
        PinIsAnOccurrence(config.priority, other.appId);
        assert j == 0 || !Before(eligible[j], eligible[0], config, badges);
      }
    }
  }

  // No game is passed over for one that stands behind it: whatever is left out
  // of the list, in its class, is not before anything chosen, and a warm-up
  // batch leaves a game out only when it is full.
  lemma ChosenStandFirst(games: seq<Game>, config: Config, badges: map<nat, nat>, gameLimit: int, chosen: Game, other: Game)
    requires Ordered(games, config, badges)
    requires var selection := Select(games, config, gameLimit);
             && chosen in selection.games && other !in selection.games
             && other in games && IsEligible(other)
             && (selection.warmingUp ==> IsWarming(other))
    ensures !Before(other, chosen, config, badges)
    ensures |Select(games, config, gameLimit).games|
         == if Select(games, config, gameLimit).warmingUp then Limit(config, gameLimit) else 1
  {
    hide Before, Limit, PinOf, Filter, IsEligible, IsWarming;
    var eligible := Filter(games, IsEligible);
    var warming := Filter(eligible, IsWarming);
    FilterKeeps(games, IsEligible);
    FilterKeeps(eligible, IsWarming);
    FilterKeepsOrdered(games, IsEligible, config, badges);
    FilterKeepsOrdered(eligible, IsWarming, config, badges);
    var selection := Select(games, config, gameLimit);
    var candidates := if selection.warmingUp then warming else eligible;
    SelectionIsPrefix(games, config, gameLimit);
    PrefixStandsFirst(candidates, |selection.games|, chosen, other, config, badges);
  }

  lemma SelectionIsPrefix(games: seq<Game>, config: Config, gameLimit: int)
    ensures var selection := Select(games, config, gameLimit);
            var eligible := Filter(games, IsEligible);
            var candidates := if selection.warmingUp then Filter(eligible, IsWarming) else eligible;
            && |selection.games| <= |candidates|
            && selection.games == candidates[..|selection.games|]
            && (|selection.games| in {0, 1, |candidates|, Limit(config, gameLimit)})
  {
    hide Limit, Filter;
  }

  lemma PrefixStandsFirst(candidates: seq<Game>, count: nat, chosen: Game, other: Game, config: Config, badges: map<nat, nat>)
    requires Ordered(candidates, config, badges) && count <= |candidates|
    requires chosen in candidates[..count] && other in candidates && other !in candidates[..count]
    ensures !Before(other, chosen, config, badges)
  {
    hide Before;
    var i :| 0 <= i < count && candidates[..count][i] == chosen;
    var j :| 0 <= j < |candidates| && candidates[j] == other;
    assert forall k :: 0 <= k < count ==> candidates[k] == candidates[..count][k];
    assert !Before(candidates[j], candidates[i], config, badges);
  }

  // ---- Known playtimes -----------------------------------------------------------------

  function Known(games: seq<Game>, appId: nat): Option<Game>
  {
    if games == [] then None
    else if games[|games| - 1].appId == appId then Some(games[|games| - 1])
    else Known(games[..|games| - 1], appId)
  }

  function MaxReal(a: real, b: real): real { if a < b then b else a }

  // A scan keeps the local estimate when Steam's page shows less.
  function Observed(games: seq<Game>, found: Game): Game
  {
    var previous := Known(games, found.appId);
    var observed := MaxReal(Playtime(found), if previous.Some? then Playtime(previous.value) else 0.0);
    found.(playtimeMinutes := if observed != 0.0 then Some(observed) else found.playtimeMinutes, skipReason := None)
  }

  lemma {:induction false} KnownFinds(games: seq<Game>, appId: nat)
    ensures Known(games, appId).Some? <==> exists game :: game in games && game.appId == appId
    ensures Known(games, appId).Some? ==> Known(games, appId).value in games && Known(games, appId).value.appId == appId
  {
    if games != [] {
      KnownFinds(games[..|games| - 1], appId);
      assert games == games[..|games| - 1] + [games[|games| - 1]];
    }
  }

  // After a scan the playtime is the longer of what Steam's page shows and what
  // was known, and all else is as the page shows it.
  lemma ObservedIsLonger(games: seq<Game>, found: Game)
    ensures var known, seen := Known(games, found.appId), Observed(games, found);
            && Playtime(found) <= Playtime(seen)
            && (known.Some? && 0.0 <= Playtime(found) ==> Playtime(known.value) <= Playtime(seen))
            && (Playtime(seen) == Playtime(found) || (known.Some? && Playtime(seen) == Playtime(known.value)))
            && seen.(playtimeMinutes := found.playtimeMinutes, skipReason := found.skipReason) == found
            && seen.skipReason.None?
  {}

  // How often a game is listed as running.
  function Times(appIds: seq<nat>, appId: nat): nat
  {
    if appIds == [] then 0
    else Times(appIds[..|appIds| - 1], appId) + if appIds[|appIds| - 1] == appId then 1 else 0
  }

  // The first entry of its app, the one a lookup finds.
  predicate IsFirst(games: seq<Game>, k: nat)
    requires k < |games|
  {
    forall m :: 0 <= m < k ==> games[m].appId != games[k].appId
  }

  // A game credited so many times.
  function Credited(game: Game, times: nat, minutes: real): (r: Game)
    ensures r.appId == game.appId
  {
    if times == 0 then game
    else
      var before := Credited(game, times - 1, minutes);
      WithPlaytime(before, Playtime(before) + minutes)
  }

  function CreditedGames(games: seq<Game>, appIds: seq<nat>, minutes: real): (r: seq<Game>)
    ensures |r| == |games| && forall k :: 0 <= k < |games| ==> r[k].appId == games[k].appId
  {
    seq(|games|, k requires 0 <= k < |games| =>
      if IsFirst(games, k) then Credited(games[k], Times(appIds, games[k].appId), minutes) else games[k])
  }

  predicate Finds(games: seq<Game>, appId: nat, k: nat)
  {
    && k <= |games| && (k < |games| ==> games[k].appId == appId)
    && forall m :: 0 <= m < k ==> games[m].appId != appId
  }

  // The entry a lookup by app finds, or the length of the list.
  method FindGame(games: seq<Game>, appId: nat) returns (k: nat)
    ensures Finds(games, appId, k)
  {
    k := 0;
    while k < |games| && games[k].appId != appId
      invariant k <= |games|
      invariant forall m :: 0 <= m < k ==> games[m].appId != appId
    {
      k := k + 1;
    }
  }

  function WithMoreAt(games: seq<Game>, k: nat, minutes: real): seq<Game>
  {
    if k < |games| then games[k := WithPlaytime(games[k], Playtime(games[k]) + minutes)] else games
  }

  // One more app: the entry it finds is credited once more, the others stay.
  lemma CreditOneMore(games: seq<Game>, appIds: seq<nat>, appId: nat, minutes: real, k: nat)
    requires Finds(CreditedGames(games, appIds, minutes), appId, k)
    ensures WithMoreAt(CreditedGames(games, appIds, minutes), k, minutes) == CreditedGames(games, appIds + [appId], minutes)
  {
    var before, after := CreditedGames(games, appIds, minutes), CreditedGames(games, appIds + [appId], minutes);
    assert forall m :: 0 <= m < |games| ==> before[m].appId == games[m].appId;
    assert (appIds + [appId])[..|appIds|] == appIds;
    forall m | 0 <= m < |games| && m != k
      ensures after[m] == before[m]
    {
      assert IsFirst(games, m) ==> games[m].appId != appId;
    }
    if k < |games| {
      assert Times(appIds + [appId], appId) == Times(appIds, appId) + 1;
    }
    assert WithMoreAt(before, k, minutes) == after;
  }

  // Credits the time since the last credit to the first entry of every running
  // app, once for each time the app is listed, and to no other.
  method CreditPlaytime(games: seq<Game>, activeAppIds: seq<nat>, activeSince: int, now: int)
    returns (credited: seq<Game>, since: int)
    ensures since == now && credited == CreditedGames(games, activeAppIds, Elapsed(activeSince, now))
  {
    var elapsed := Elapsed(activeSince, now);
    credited := games;
    assert credited == CreditedGames(games, [], elapsed);
    for n := 0 to |activeAppIds|
      invariant credited == CreditedGames(games, activeAppIds[..n], elapsed)
    {
      credited := CreditGame(games, activeAppIds[..n], activeAppIds[n], elapsed, credited);
      assert activeAppIds[..n + 1] == activeAppIds[..n] + [activeAppIds[n]];
    }
    assert activeAppIds[..|activeAppIds|] == activeAppIds;
    since := now;
  }

  method CreditGame(ghost games: seq<Game>, ghost done: seq<nat>, appId: nat, elapsed: real, before: seq<Game>) returns (credited: seq<Game>)
    requires before == CreditedGames(games, done, elapsed)
    ensures credited == CreditedGames(games, done + [appId], elapsed)
  {
    var k := FindGame(before, appId);
    CreditOneMore(games, done, appId, elapsed, k);
    credited := before;
    if k < |credited| {
      credited := credited[k := WithPlaytime(credited[k], Playtime(credited[k]) + elapsed)];
    }
    assert credited == WithMoreAt(before, k, elapsed);
  }

  // Where no app is listed twice, every running game is credited just once.
  lemma DistinctAppsCreditedOnce(games: seq<Game>, appIds: seq<nat>, minutes: real, k: nat)
    requires k < |games| && IsFirst(games, k)
    requires forall i, j :: 0 <= i < j < |appIds| ==> appIds[i] != appIds[j]
    ensures CreditedGames(games, appIds, minutes)[k]
         == if games[k].appId in appIds then WithPlaytime(games[k], Playtime(games[k]) + minutes) else games[k]
  {
    TimesInDistinct(appIds, games[k].appId);
    assert Credited(games[k], 0, minutes) == games[k];
    assert Credited(games[k], 1, minutes) == WithPlaytime(games[k], Playtime(games[k]) + minutes);
  }

  lemma {:induction false} TimesInDistinct(appIds: seq<nat>, appId: nat)
    requires forall i, j :: 0 <= i < j < |appIds| ==> appIds[i] != appIds[j]
    ensures Times(appIds, appId) == if appId in appIds then 1 else 0
  {
    if appIds != [] {
      var front := appIds[..|appIds| - 1];
      TimesInDistinct(front, appId);
      assert appIds == front + [appIds[|appIds| - 1]];
    }
  }

  function WithPlaytime(game: Game, minutes: real): Game { game.(playtimeMinutes := Some(minutes)) }

  // Minutes, never negative.
  function Elapsed(since: int, now: int): real
  {
    if now <= since then 0.0 else (now - since) as real / MS_PER_MINUTE as real
  }

  lemma ElapsedIsMinutes(since: int, minutes: nat)
    ensures Elapsed(since, since + minutes * MS_PER_MINUTE) == minutes as real
    ensures Elapsed(since, since - minutes) == 0.0
  {}

  lemma ElapsedAddsUp(since: int, middle: int, now: int)
    requires since <= middle <= now
    ensures Elapsed(since, middle) + Elapsed(middle, now) == Elapsed(since, now)
  {}

  // Crediting at an intermediate moment changes nothing: no time is counted
  // twice or lost between two credits.
  lemma CreditsAddUp(games: seq<Game>, appIds: seq<nat>, since: int, middle: int, now: int)
    requires since <= middle <= now
    requires forall i, j :: 0 <= i < j < |appIds| ==> appIds[i] != appIds[j]
    ensures CreditedGames(CreditedGames(games, appIds, Elapsed(since, middle)), appIds, Elapsed(middle, now))
         == CreditedGames(games, appIds, Elapsed(since, now))
  {
    var once := CreditedGames(games, appIds, Elapsed(since, middle));
    var twice := CreditedGames(once, appIds, Elapsed(middle, now));
    var whole := CreditedGames(games, appIds, Elapsed(since, now));
    ElapsedAddsUp(since, middle, now);
    forall k | 0 <= k < |games|
      ensures twice[k] == whole[k]
    {
      assert forall m :: 0 <= m < |games| ==> once[m].appId == games[m].appId;
      assert IsFirst(once, k) <==> IsFirst(games, k);
      if IsFirst(games, k) {
        DistinctAppsCreditedOnce(games, appIds, Elapsed(since, middle), k);
        DistinctAppsCreditedOnce(once, appIds, Elapsed(middle, now), k);
        DistinctAppsCreditedOnce(games, appIds, Elapsed(since, now), k);
      }
    }
  }

  // A game that is past the warm-up never falls back into it, whatever a later
  // scan reports.
  lemma WarmUpIsNotRepeated(games: seq<Game>, found: Game, previous: Game, minutes: real)
    requires Known(games, found.appId) == Some(previous) && !IsWarming(previous) && minutes >= 0.0
    ensures !IsWarming(Observed(games, found))
    ensures Playtime(previous) <= Playtime(Observed(games, found))
    ensures !IsWarming(WithPlaytime(previous, Playtime(previous) + minutes))
  {}
}
