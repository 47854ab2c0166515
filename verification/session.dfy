/** Whole sessions: a sequence of user actions and timer events applied to
    the game state, and the properties that hold along every such sequence. */
module Session {

  import opened Wrappers
  import opened Cards
  import opened Points
  import opened Turns
  import opened Wheel
  import opened Game

  /** One event the page reacts to. `k` and `choice` stand for the values
      Math.random supplies; `input` is what the name dialog returned. */
  datatype Action =
    | DrawCard(k: nat)
    | CountCard
    | SkipCard
    | PressWheelButton(level: int)
    | SpinWheel(choice: nat)
    | RevealSpin
    | CloseDialog
    | RenamePlayer(player: int, input: Option<string>)

  /** The event can happen in this state: the random index is in range,
      the spin button is on screen (it lives inside the wheel dialog), the
      level button exists, or a reveal timer is pending. */
  predicate Admissible(g: Game, a: Action)
  {
    match a
    case DrawCard(k) => |g.deck| == 0 || k < |g.deck|
    case PressWheelButton(level) => 1 <= level <= 3
    case SpinWheel(choice) => g.wheelOpen && (g.isSpinning || choice < |g.wheelItems|)
    case RevealSpin => |g.pending| > 0
    case RenamePlayer(player, _) => player == 1 || player == 2
    case _ => true
  }

  function Step(g: Game, a: Action): Game
    requires Admissible(g, a)
  {
    match a
    case DrawCard(k) => Draw(g, k).game
    case CountCard => Count(g)
    case SkipCard => Skip(g)
    case PressWheelButton(level) => PressWheel(g, level)
    case SpinWheel(choice) => SpinStart(g, choice)
    case RevealSpin => SpinReveal(g).game
    case CloseDialog => CloseWheel(g)
    case RenamePlayer(player, input) => Rename(g, player, input)
  }

  /** The state after a sequence of events, or None if some event in it
      could not happen in the state it met. */
  function Run(g: Game, acts: seq<Action>): Option<Game>
    decreases |acts|
  {
    if acts == [] then Some(g)
    else if Admissible(g, acts[0]) then Run(Step(g, acts[0]), acts[1..])
    else None
  }

  /** Every single event keeps the invariant, never brings a card back and
      never turns the wheel backwards. */
  lemma StepProperties(g: Game, a: Action)
    requires Admissible(g, a)
    ensures Valid(g) ==> Valid(Step(g, a))
    ensures forall x :: x in Step(g, a).deck ==> x in g.deck
    ensures g.rotation <= Step(g, a).rotation
  {
    if a.SpinWheel? && !g.isSpinning {
      SpinAdvances(g.rotation, a.choice, |g.wheelItems|);
    }
  }

  /** The invariant holds after every sequence of events. */
  lemma {:induction false} RunPreservesValid(g: Game, acts: seq<Action>)
    requires Valid(g)
    ensures Run(g, acts).Some? ==> Valid(Run(g, acts).value)
    decreases |acts|
  {
    if acts != [] && Admissible(g, acts[0]) {
      StepProperties(g, acts[0]);
      RunPreservesValid(Step(g, acts[0]), acts[1..]);
    }
  }

  /** The deck only ever loses cards, and the wheel only ever turns forward. */
  lemma {:induction false} RunMonotone(g: Game, acts: seq<Action>)
    ensures Run(g, acts).Some? ==> forall x :: x in Run(g, acts).value.deck ==> x in g.deck
    ensures Run(g, acts).Some? ==> g.rotation <= Run(g, acts).value.rotation
    decreases |acts|
  {
    if acts != [] && Admissible(g, acts[0]) {
      StepProperties(g, acts[0]);
      RunMonotone(Step(g, acts[0]), acts[1..]);
    }
  }

  /** A drawn card is never in the deck again, whatever happens afterwards. */
  lemma DrawnNeverReturns(g: Game, k: nat, acts: seq<Action>)
    requires Valid(g) && k < |g.deck|
    ensures var d := Draw(g, k);
            Run(d.game, acts).Some? ==> d.card.value.id !in Run(d.game, acts).value.deck
  {
    RunMonotone(Draw(g, k).game, acts);
  }

  /** Every state reachable from page load has both meters in 0..3, an
      active player of 1 or 2, and only question ids 1..30 in the deck. */
  lemma ReachableIsValid(stored1: Option<string>, stored2: Option<string>, acts: seq<Action>)
    ensures var r := Run(Init(stored1, stored2), acts);
            r.Some? ==>
              && InMeter(r.value.score1) && InMeter(r.value.score2)
              && IsPlayer(r.value.active)
              && (forall x :: x in r.value.deck ==> 1 <= x <= DeckSize)
  {
    RunPreservesValid(Init(stored1, stored2), acts);
  }

  /** Count and skip act once per drawn card: after either, both are no-ops
      until the next draw. */
  lemma DecisionOncePerCard(g: Game)
    ensures Count(Count(g)) == Count(g) && Skip(Count(g)) == Count(g)
    ensures Count(Skip(g)) == Skip(g) && Skip(Skip(g)) == Skip(g)
  {
  }

  /** Without a draw, no later event makes a card countable again: after a
      count or a skip, both stay no-ops through any wheel, reveal, dialog or
      rename events until the next draw. */
  lemma {:induction false} NoDecisionUntilNextDraw(g: Game, acts: seq<Action>)
    requires !g.canCount
    requires forall i :: 0 <= i < |acts| ==> !acts[i].DrawCard?
    ensures Run(g, acts).Some? ==>
              var v := Run(g, acts).value;
              !v.canCount && Count(v) == v && Skip(v) == v
    decreases |acts|
  {
    if acts != [] && Admissible(g, acts[0]) {
      NoDecisionUntilNextDraw(Step(g, acts[0]), acts[1..]);
    }
  }

  /** Each index is in range for the deck it meets: the deck loses one card
      per draw. */
  predicate ChoicesFit(deckSize: int, choices: seq<nat>)
  {
    forall j :: 0 <= j < |choices| ==> choices[j] < deckSize - j
  }

  /** Draws once per index of `choices`, in order: the ids the draws report,
      and the state after the last one. From a deck without repeats, every
      id drawn is distinct, leaves the deck, and drawn plus remaining cards
      are exactly the cards there were. */
  function DrawMany(g: Game, choices: seq<nat>): (r: (seq<int>, Game))
    requires ChoicesFit(|g.deck|, choices)
    ensures |r.0| == |choices|
    ensures |r.1.deck| == |g.deck| - |choices|
    ensures Distinct(g.deck) ==>
              && Distinct(r.0) && Distinct(r.1.deck)
              && multiset(r.0) + multiset(r.1.deck) == multiset(g.deck)
    decreases |choices|
  {
    if choices == [] then ([], g)
    else
      var d := Draw(g, choices[0]);
      var rest := DrawMany(d.game, choices[1..]);
      if Distinct(g.deck) then
        PrependDrawnCard(g.deck, choices[0], rest.0, rest.1.deck);
        ([d.card.value.id] + rest.0, rest.1)
      else
        ([d.card.value.id] + rest.0, rest.1)
  }

  /** The first draw of a sequence of draws. */
  lemma DrawManyFirst(g: Game, choices: seq<nat>)
    requires choices != [] && ChoicesFit(|g.deck|, choices)
    ensures var d := Draw(g, choices[0]);
            && DrawMany(g, choices).0 == [d.card.value.id] + DrawMany(d.game, choices[1..]).0
            && DrawMany(g, choices).1 == DrawMany(d.game, choices[1..]).1
  {
  }

  /** Putting the card at position k in front of the cards drawn after it
      keeps them duplicate-free and preserves the cards overall. */
  lemma PrependDrawnCard(deck: seq<int>, k: nat, later: seq<int>, left: seq<int>)
    requires k < |deck| && Distinct(deck) && Distinct(later)
    requires multiset(later) + multiset(left) == multiset(RemoveAt(deck, k))
    ensures Distinct([deck[k]] + later)
    ensures multiset([deck[k]] + later) + multiset(left) == multiset(deck)
  {
    var id := deck[k];
    var rest := RemoveAt(deck, k);
    assert id !in multiset(rest);
    assert multiset(later) <= multiset(rest);
    assert id !in multiset(later);
    var l := [id] + later;
    forall i, j | 0 <= i < j < |l|
      ensures l[i] != l[j]
    {
      if i == 0 {
        assert l[j] == later[j - 1];
      } else {
        assert l[i] == later[i - 1] && l[j] == later[j - 1];
      }
    }
  }

  /** Draws every remaining card, one random index per draw, through the
      draw handler. Each card comes out exactly once and the deck ends empty,
      so a further draw finds nothing. */
  method DrawAll(g: Game, choices: seq<nat>) returns (drawn: seq<int>, last: Game)
    requires Distinct(g.deck)
    requires |choices| == |g.deck|
    requires ChoicesFit(|g.deck|, choices)
    ensures drawn == DrawMany(g, choices).0 && last == DrawMany(g, choices).1
    ensures last.deck == []
    ensures multiset(drawn) == multiset(g.deck)
    ensures Distinct(drawn)
    ensures Draw(last, 0).card.None?
  {
    drawn := [];
    last := g;
    var i := 0;
    assert choices[i..] == choices;
    while i < |choices|
      invariant 0 <= i <= |choices|
      invariant |last.deck| == |g.deck| - i
      invariant ChoicesFit(|last.deck|, choices[i..])
      invariant DrawMany(g, choices).0 == drawn + DrawMany(last, choices[i..]).0
      invariant DrawMany(g, choices).1 == DrawMany(last, choices[i..]).1
    {
      var r := Draw(last, choices[i]);
      assert choices[i..][1..] == choices[i + 1..];
      DrawManyFirst(last, choices[i..]);
      drawn := drawn + [r.card.value.id];
      last := r.game;
      i := i + 1;
    }
    assert choices[i..] == [];
  }

  /** A session from page load: player 1 draws card 7 (a Perception card)
      and counts it; player 1 then has one point and it is player 2's turn. */
  lemma DrawThenCountScenario(stored1: Option<string>, stored2: Option<string>)
    ensures var d := Draw(Init(stored1, stored2), 6);
            && d.card == Some(Card(7, Perception))
            && Count(d.game).score1 == 1 && Count(d.game).score2 == 0
            && Count(d.game).active == 2
  {
  }

  /** Player 1 with a full meter opens wheel 3, spins onto slice 2, and the
      reveal empties the meter and passes the turn. */
  lemma FullMeterSpinScenario(g: Game)
    requires Valid(g) && g.active == 1 && g.score1 == 3 && g.pending == []
    ensures var atWheel := PressWheel(g, 3);
            var spun := SpinStart(atWheel, 2);
            var shown := SpinReveal(spun);
            && atWheel.wheelLevel == 3
            && shown.game.score1 == 0
            && shown.game.active == 2
            && shown.prompt == Some(Prompt(3, 2))
  {
    var atWheel := PressWheel(g, 3);
    assert atWheel == OpenWheel(g, 3);
    assert atWheel.wheelItems == Tier(3);
    var spun := SpinStart(atWheel, 2);
    assert spun.pending == atWheel.pending + [2];
    assert spun.wheelItems[2] == Prompt(3, 2);
  }

  /** Opening a wheel while a spin is running clears the spinning flag, so a
      second spin is accepted before the first reveal: two reveals are then
      pending, and each will spend points and pass the turn. */
  lemma ReopenDuringSpin(g: Game, i: nat, level: int, j: nat)
    requires Valid(g) && g.pending == [] && i < |g.wheelItems|
    requires 1 <= level <= 3 && j < WheelSize
    ensures var first := SpinStart(g, i);
            var second := SpinStart(OpenWheel(first, level), j);
            && first.isSpinning
            && second.isSpinning
            && second.pending == [i, j]
  {
  }

  /** The reveal passes the turn without clearing the count flag: a player
      who draws and then spins hands a still-countable card to the other
      player, whose count then earns the point. */
  lemma RevealKeepsCardCountable(g: Game, k: nat)
    requires Valid(g) && g.active == 1 && g.score1 == 1 && g.score2 == 0 && g.pending == []
    requires 0 < |g.deck| && k < |g.deck|
    ensures var drawn := Draw(g, k).game;
            var shown := SpinReveal(SpinStart(PressWheel(drawn, 1), 0)).game;
            && shown.active == 2 && shown.canCount
            && Count(shown).score2 == 1 && Count(shown).score1 == 0
  {
    var drawn := Draw(g, k).game;
    var atWheel := PressWheel(drawn, 1);
    assert atWheel == OpenWheel(drawn, 1);
    var spun := SpinStart(atWheel, 0);
    assert spun.pending == [0];
  }
}
