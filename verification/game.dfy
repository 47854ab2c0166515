/** The game state of the page and the transition each user action (or the
    spin's delayed reveal) applies to it. */
module Game {

  import opened Wrappers
  import opened Cards
  import opened Points
  import opened Turns
  import opened Wheel
  import opened Names

  /** One snapshot of the page's state variables. `pending` holds, oldest
      first, the slice chosen by each spin whose delayed reveal has not fired
      yet; `wheelOpen` is whether the wheel dialog is showing. */
  datatype Game = Game(
    deck: seq<int>,
    hasDrawn: bool,
    active: int,
    score1: int,
    score2: int,
    canCount: bool,
    name1: string,
    name2: string,
    wheelLevel: int,
    wheelItems: seq<Prompt>,
    wheelOpen: bool,
    isSpinning: bool,
    rotation: real,
    pending: seq<nat>)

  /** What the draw handler produces: the new state and the card shown, if any. */
  datatype DrawOutcome = DrawOutcome(game: Game, card: Option<Card>)

  /** What the spin's reveal produces: the new state and the prompt shown
      (None where the list has no item at the chosen index). */
  datatype RevealOutcome = RevealOutcome(game: Game, prompt: Option<Prompt>)

  function Score(g: Game, p: int): int
  {
    if p == 1 then g.score1 else g.score2
  }

  function WithScore(g: Game, p: int, v: int): (r: Game)
    ensures Score(r, p) == v
    ensures p == 1 || p == 2 ==> Score(r, Other(p)) == Score(g, Other(p))
  {
    if p == 1 then g.(score1 := v) else g.(score2 := v)
  }

  function Name(g: Game, p: int): string
  {
    if p == 1 then g.name1 else g.name2
  }

  /** The invariant every reachable state keeps. */
  predicate Valid(g: Game)
  {
    && Distinct(g.deck)
    && InRange(g.deck)
    && IsPlayer(g.active)
    && InMeter(g.score1)
    && InMeter(g.score2)
    && 1 <= g.wheelLevel <= 3
    && (g.wheelItems == [] || g.wheelItems == ItemsFor(g.wheelLevel))
    && (g.isSpinning ==> |g.pending| > 0)
    && (|g.pending| > 0 ==> g.wheelItems != [])
    && (forall i :: 0 <= i < |g.pending| ==> g.pending[i] < WheelSize)
    && 0.0 <= g.rotation
  }

  /** Only the card-related fields may differ. */
  predicate SameExceptCards(g: Game, r: Game)
  {
    && r.active == g.active && r.score1 == g.score1 && r.score2 == g.score2
    && r.name1 == g.name1 && r.name2 == g.name2
    && r.wheelLevel == g.wheelLevel && r.wheelItems == g.wheelItems
    && r.wheelOpen == g.wheelOpen && r.isSpinning == g.isSpinning
    && r.rotation == g.rotation && r.pending == g.pending
  }

  /** The state when the page loads, given what name storage returned. */
  function Init(stored1: Option<string>, stored2: Option<string>): (g: Game)
    ensures Valid(g)
    ensures g.deck == FreshDeck()
    ensures |g.deck| == DeckSize && forall id :: 1 <= id <= DeckSize ==> id in g.deck
    ensures g.active == 1 && g.score1 == 0 && g.score2 == 0 && !g.canCount && !g.hasDrawn
    ensures g.name1 == InitialName(stored1, 1) && g.name2 == InitialName(stored2, 2)
    ensures g.wheelLevel == 1 && g.wheelItems == [] && !g.wheelOpen
    ensures !g.isSpinning && g.pending == [] && g.rotation == 0.0
  {
    Game(FreshDeck(), false, 1, 0, 0, false,
         InitialName(stored1, 1), InitialName(stored2, 2),
         1, [], false, false, 0.0, [])
  }

  /** The draw handler. `k` stands for the random index into the remaining
      keys. An empty deck leaves everything as it is. Drawing does not look at
      the count/skip flag: a second draw before deciding is allowed. */
  function Draw(g: Game, k: nat): (r: DrawOutcome)
    requires |g.deck| == 0 || k < |g.deck|
    ensures |g.deck| == 0 ==> r.game == g && r.card.None?
    ensures |g.deck| > 0 ==>
              && r.card == Some(Card(g.deck[k], LevelInfo(g.deck[k])))
              && r.game.deck == RemoveAt(g.deck, k)
              && |r.game.deck| == |g.deck| - 1
              && (forall x :: x in g.deck && x != g.deck[k] ==> x in r.game.deck)
              && (Distinct(g.deck) ==> g.deck[k] !in r.game.deck)
              && r.game.canCount && r.game.hasDrawn
    ensures forall x :: x in r.game.deck ==> x in g.deck
    ensures SameExceptCards(g, r.game)
    ensures Valid(g) ==> Valid(r.game)
  {
    if |g.deck| == 0 then DrawOutcome(g, None)
    else
      var id := g.deck[k];
      DrawOutcome(g.(deck := RemoveAt(g.deck, k), canCount := true, hasDrawn := true),
                  Some(Card(id, LevelInfo(id))))
  }

  /** The count handler: a point for the active player, then the turn passes. */
  function Count(g: Game): (r: Game)
    ensures !g.canCount ==> r == g
    ensures g.canCount ==>
              && Score(r, g.active) == Award(Score(g, g.active))
              && Score(r, Other(g.active)) == Score(g, Other(g.active))
              && !r.canCount
              && r.active == Other(g.active)
              && r == g.(score1 := r.score1, score2 := r.score2, canCount := false, active := r.active)
    ensures Valid(g) ==> Valid(r)
  {
    if !g.canCount then g
    else
      var awarded := WithScore(g, g.active, Award(Score(g, g.active)));
      awarded.(canCount := false, active := Other(g.active))
  }

  /** Whether the count handler would play the full-meter celebration. */
  predicate CountCelebrates(g: Game)
  {
    g.canCount && JustCompleted(Score(g, g.active))
  }

  /** In a valid state the celebration plays exactly when a counted card
      takes the active player from two points to three. */
  lemma CountCelebratesIff(g: Game)
    requires Valid(g)
    ensures CountCelebrates(g) <==> g.canCount && Score(g, g.active) == 2 && Score(Count(g), g.active) == 3
  {
    JustCompletedIff(Score(g, g.active));
  }

  /** The skip handler: no points, the turn passes. */
  function Skip(g: Game): (r: Game)
    ensures !g.canCount ==> r == g
    ensures g.canCount ==>
              && r.score1 == g.score1 && r.score2 == g.score2
              && !r.canCount
              && r.active == Other(g.active)
              && r == g.(canCount := r.canCount, active := r.active)
    ensures Valid(g) ==> Valid(r)
  {
    if !g.canCount then g
    else g.(canCount := false, active := Other(g.active))
  }

  /** openWheel: select the level's list, show the dialog, and clear the
      spinning flag (even if a reveal is still pending). */
  function OpenWheel(g: Game, level: int): (r: Game)
    requires 1 <= level <= 3
    ensures r.wheelLevel == level && r.wheelItems == ItemsFor(level)
    ensures |r.wheelItems| == WheelSize
    ensures r.wheelOpen && !r.isSpinning
    ensures r == g.(wheelLevel := level, wheelItems := r.wheelItems, wheelOpen := true, isSpinning := false)
    ensures Valid(g) ==> Valid(r)
  {
    g.(wheelLevel := level, wheelItems := ItemsFor(level), wheelOpen := true, isSpinning := false)
  }

  /** The three wheel buttons: the wheel opens only when the active player
      can afford the level. */
  function PressWheel(g: Game, level: int): (r: Game)
    requires 1 <= level <= 3
    ensures !WheelEnabled(Score(g, g.active), level) ==> r == g
    ensures WheelEnabled(Score(g, g.active), level) ==> r == OpenWheel(g, level)
    ensures r.wheelOpen && !g.wheelOpen ==> level <= Score(g, g.active)
    ensures Valid(g) ==> Valid(r)
  {
    if Score(g, g.active) < level then g else OpenWheel(g, level)
  }

  /** closeWheelModal: refused while a spin is running. */
  function CloseWheel(g: Game): (r: Game)
    ensures g.isSpinning ==> r == g
    ensures !g.isSpinning ==> !r.wheelOpen && r == g.(wheelOpen := false)
    ensures Valid(g) ==> Valid(r)
  {
    if g.isSpinning then g else g.(wheelOpen := false)
  }

  /** The first half of spinWheel: ignored while spinning; otherwise the
      slice `choice` (standing for the random index) is fixed now, the wheel
      is turned, and its reveal is scheduled. */
  function SpinStart(g: Game, choice: nat): (r: Game)
    requires g.isSpinning || choice < |g.wheelItems|
    ensures g.isSpinning ==> r == g
    ensures !g.isSpinning ==>
              && r.isSpinning
              && r.pending == g.pending + [choice]
              && 1890.0 + g.rotation < r.rotation < g.rotation + 2250.0
              && r.rotation == SpinRotation(g.rotation, choice, |g.wheelItems|)
              && r == g.(isSpinning := true, rotation := r.rotation, pending := r.pending)
    ensures Valid(g) ==> Valid(r)
  {
    if g.isSpinning then g
    else
      SpinAdvances(g.rotation, choice, |g.wheelItems|);
      g.(isSpinning := true,
         rotation := SpinRotation(g.rotation, choice, |g.wheelItems|),
         pending := g.pending + [choice])
  }

  /** The delayed half of spinWheel, when the oldest pending timer fires:
      the CURRENT wheel level is spent from the CURRENT active player
      (clamped at zero), the prompt at the chosen index of the CURRENT list is
      shown, the spinning flag clears, the dialog closes and the turn passes. */
  function SpinReveal(g: Game): (r: RevealOutcome)
    requires |g.pending| > 0
    ensures Score(r.game, g.active) == Spend(Score(g, g.active), g.wheelLevel)
    ensures Score(r.game, Other(g.active)) == Score(g, Other(g.active))
    ensures r.game.active == Other(g.active)
    ensures !r.game.isSpinning && !r.game.wheelOpen
    ensures r.game.pending == g.pending[1..]
    ensures g.pending[0] < |g.wheelItems| ==> r.prompt == Some(g.wheelItems[g.pending[0]])
    ensures r.game == g.(score1 := r.game.score1, score2 := r.game.score2, active := r.game.active,
                         isSpinning := false, wheelOpen := false, pending := r.game.pending)
    ensures Valid(g) ==> Valid(r.game) && r.prompt.Some? && r.prompt.value.level == g.wheelLevel
  {
    var idx := g.pending[0];
    var spent := WithScore(g, g.active, Spend(Score(g, g.active), g.wheelLevel));
    var shown := if idx < |g.wheelItems| then Some(g.wheelItems[idx]) else None;
    var closed := spent.(isSpinning := false, pending := g.pending[1..], wheelOpen := false);
    RevealOutcome(closed.(active := Other(g.active)), shown)
  }

  /** editPlayerName for player 1 or 2; `input` is what the dialog returned. */
  function Rename(g: Game, player: int, input: Option<string>): (r: Game)
    requires player == 1 || player == 2
    ensures CleanName(input).None? ==> r == g
    ensures CleanName(input).Some? ==> Name(r, player) == CleanName(input).value
    ensures |Name(r, player)| <= MaxNameLength || Name(r, player) == Name(g, player)
    ensures Name(r, Other(player)) == Name(g, Other(player))
    ensures r == g.(name1 := r.name1, name2 := r.name2)
    ensures Valid(g) ==> Valid(r)
  {
    match CleanName(input)
    case None => g
    case Some(clean) => if player == 1 then g.(name1 := clean) else g.(name2 := clean)
  }
}
