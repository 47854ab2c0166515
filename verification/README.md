# Question Night — game-state model

A Dafny model of the game logic of Question Night (`tester.js`), a two-player
browser party game. Players take turns drawing question cards from a 30-card
deck. A player who answers a card may "count" it for a point, up to three.
Points are spent on three "mystery wheels" costing 1, 2 and 3 points. The page
keeps its state in module-level variables and changes them from button
handlers. Here that state is one immutable `Game` record, and every handler is
a pure function from state to state.

Modules, one per concern of the script:

- `Cards` (`cards.dfy`): question ids 1..30, the category bands (`getLevelInfo`) and deleting a drawn key. The deck is a sequence, because a JavaScript `Map` iterates its keys in insertion order and the draw indexes `Array.from(questions.keys())`.
- `Points` (`points.dfy`): the 0..3 meter, the capped award, the clamped wheel spend and the wheel-button gating.
- `Turns` (`turns.dfy`): `switchTurn`.
- `Wheel` (`wheel.dfy`): the three five-item wheels and the spin's rotation arithmetic. Angles are exact `real` numbers, and the item count `n` is kept general.
- `Names` (`names.dfy`): `String.prototype.trim`, the 16-character cut and the default names.
- `Game` (`game.dfy`): the state record, its invariant `Valid`, and one transition per handler.
- `Session` (`session.dfy`): sequences of events, and the properties that hold along every sequence.

`Math.random` becomes an index argument with a range precondition. The
2700 ms `setTimeout` of `spinWheel` is split in two. `SpinStart` fixes the
chosen slice, turns the wheel and appends the slice to a queue of pending
reveals. `SpinReveal` fires the oldest pending reveal. It is a queue because
`openWheel` clears `isSpinning` without cancelling the timer, so a second spin
can start before the first reveal (`Session.ReopenDuringSpin`).

Some behaviour of the script that the model keeps as written:

- A draw does not check whether the previous card was counted or skipped.
- Spinning does not re-check whether the player can afford the wheel. Only the wheel buttons check that.
- The reveal spends the wheel level that is current when the timer fires, from the player who is active at that moment, clamped at zero.
- A spin is refused only while `isSpinning` is set, not while a reveal is pending.
- On the five-item wheels, one spin advances the rotation by 1926 to 2214 degrees, depending on the slice. So it is not always more than 2160 degrees. It is always more than five full turns.
- The reveal passes the turn but does not clear the count flag. A player who draws and then spins leaves the card countable, and the other player can count it for a point (`Session.RevealKeepsCardCountable`).
- The spin subtracts the chosen slice's centre from the cumulative rotation instead of from the rotation modulo a full turn. So the chosen slice comes to rest at a screen angle equal to the previous rotation modulo 360, and that angle changes from spin to spin (`Wheel.LandingAngle`, `Wheel.LandingDrifts`). The marker the player sees lives in the stylesheet, which is not part of this model. The revealed prompt comes from the chosen index, never from the wheel's position.

## Model

| member | source | states |
|---|---|---|
| Cards.LevelInfo | tester.js:265-269 | ids up to 10 are Perception, 11..20 Connection, and every other integer Reflection; the function is total |
| Cards.LevelInfoMatchesBands | tester.js:8-44 | on ids 1..30, an id's category is exactly the band of the deck it is listed under, and each band holds ten ids |
| Cards.FreshDeck | tester.js:8-44 | the fresh deck lists the ids 1..30 in insertion order, so each id occurs exactly once |
| Cards.RemoveAt | tester.js:518-535 | deleting the key at position k removes that key and only that key: the length drops by one, the other keys keep their relative order, and the removed key is gone when keys were distinct |
| Points.Award | tester.js:545-548 | a counted card adds one point below 3 and leaves a full meter at 3; meter values stay in 0..3 and never decrease |
| Points.Spend | tester.js:175-177 | spending never goes below zero, takes exactly the level off when the score covers it and leaves 0 otherwise |
| Points.JustCompletedIff | tester.js:551-552 | the full-meter celebration fires exactly when the score before the award is 2 |
| Points.AwardSaturates | tester.js:548 | three awards take an empty meter to 3 and a fourth keeps it at 3 |
| Points.SpendStaysInMeter | tester.js:176 | for any meter value and wheel level 1..3 the spend yields a meter value, and level plus result equals the old score when the wheel was affordable |
| Points.WheelButtonsEnabled | tester.js:253-258 | with a meter value s, the level-L button is enabled exactly when L <= s: the enabled buttons are levels 1..s, all three at 3 points and none at 0 |
| Turns.Other | tester.js:260-261 | the next player is always 1 or 2 and differs from a current player of 1 or 2; any value other than 1 goes to 1 |
| Turns.OtherInvolutive | tester.js:260-261 | switching the turn twice gives back the same player |
| Wheel.Tier | tester.js:49-71 | each wheel has five items, slot i of wheel L being prompt (L, i) |
| Wheel.ItemsFor | tester.js:323-328 | levels 1, 2 and 3 select exactly their own five-item list in slot order, and every other level selects wheel 3 |
| Wheel.SpinRotation | tester.js:350-362 | for a slice i of an n-item wheel, the new cumulative rotation lies strictly between 1890 and 2250 degrees past the previous one |
| Wheel.CenterWithinTurn | tester.js:350-356 | the centre of any chosen slice lies strictly within one turn of the start offset |
| Wheel.SpinAdvances | tester.js:350-362 | for any item count, a spin adds strictly between 1890 and 2250 degrees to the cumulative rotation |
| Wheel.FiveSliceAdvance | tester.js:350-362 | on a five-item wheel slice i adds exactly 2214 - 72 i degrees, between 1926 and 2214 |
| Wheel.LandingAngle | tester.js:355-362 | after a spin, the screen angle (mod 360) of the chosen slice's centre equals the previous cumulative rotation (mod 360), for any item count and slice |
| Wheel.LandingDrifts | tester.js:346-362 | three spins in a row onto slice 0 of a five-item wheel rest the chosen centre at 0, 54 and 108 degrees; the first and third resting slices are a full slice width apart, so no fixed marker is over the chosen slice on both of those spins |
| Names.TrimStart | tester.js:213 | the result is a suffix of the input, the dropped prefix is all whitespace, and a non-empty result starts with a non-whitespace character |
| Names.TrimEnd | tester.js:213 | the result is a prefix of the input, the dropped suffix is all whitespace, and a non-empty result ends with a non-whitespace character |
| Names.Trim | tester.js:213 | the result is no longer than the input, and a non-empty result neither starts nor ends with whitespace |
| Names.TrimCharacterized | tester.js:213 | the input is a run of whitespace, then the trimmed result, then a run of whitespace |
| Names.TrimEmptyIff | tester.js:213-214 | trimming leaves nothing exactly when every character is whitespace |
| Names.CleanName | tester.js:211-214 | a cancelled or empty input is rejected; an accepted name has 1..16 characters and starts with a non-whitespace character; it is the whole trimmed input when that has at most 16 characters and the first 16 characters otherwise |
| Names.CleanNameAcceptsIff | tester.js:211-214 | a rename is accepted if and only if the input contains a non-whitespace character |
| Names.CleanNameNotIdempotent | tester.js:213 | the cut after the trim can keep a trailing space, which a second cleaning removes |
| Names.InitialName | tester.js:127-130 | a stored non-empty name is used; a missing or empty stored name falls back to "Player N" |
| Game.Init | tester.js:120-136 | the page starts in a valid state with the fresh deck in insertion order, player 1 to move, both meters at 0, nothing to count or drawn, the stored-or-default names, wheel level 1 with no items, no spin and rotation 0 (the dialog starts hidden, as the page markup has it) |
| Game.Draw | tester.js:512-537 | an empty deck changes nothing; otherwise the card at the chosen index is reported with its category, the remaining deck is the old one without that key and in the same order, and the card can be counted; nothing outside the cards changes and the invariant is kept |
| Game.Count | tester.js:539-570 | without a drawn card nothing happens; otherwise the active player gets the capped point, the other score is unchanged, the flag clears, the turn passes and no other field changes; the invariant is kept |
| Game.CountCelebratesIff | tester.js:551-561 | in a valid state the celebration plays exactly when a counted card takes the active player from 2 to 3 points |
| Game.Skip | tester.js:573-585 | without a drawn card nothing happens; otherwise both scores stay, the flag clears, the turn passes and nothing else changes; the invariant is kept |
| Game.OpenWheel | tester.js:323-338 | the chosen level and its five items are selected, the dialog shows and the spinning flag clears, with nothing else changed |
| Game.PressWheel | tester.js:587-599 | a level-L wheel opens only when the active player's score is at least L, and otherwise nothing changes |
| Game.CloseWheel | tester.js:340-344 | closing is refused while spinning and otherwise only hides the dialog |
| Game.SpinStart | tester.js:346-364 | a spin is ignored while spinning; otherwise it sets the flag, queues the chosen slice and strictly advances the rotation by 1890..2250 degrees, and no other field changes |
| Game.SpinReveal | tester.js:365-379 | the current level is spent (clamped) from the current active player only, the oldest queued slice's prompt is shown, spinning and the dialog end, the turn passes exactly once and no other field changes; in a valid state a prompt of the current wheel is shown and the invariant is kept |
| Game.Rename | tester.js:207-217 | a rejected input leaves the state unchanged; an accepted one becomes that player's name, at most 16 characters, and the other player's name and all other fields stay |
| Session.StepProperties | tester.js:512-606 | every event keeps the invariant, never adds a card to the deck and never decreases the rotation |
| Session.RunPreservesValid | tester.js:120-136 | the invariant holds after every sequence of events |
| Session.RunMonotone | tester.js:512-606 | along any sequence of events the deck only loses cards and the rotation never decreases |
| Session.DrawnNeverReturns | tester.js:535 | a drawn card is absent from the deck after any later sequence of events |
| Session.ReachableIsValid | tester.js:120-136 | every state reachable from page load has both scores in 0..3, player 1 or 2 to move, and only ids 1..30 in the deck |
| Session.DecisionOncePerCard | tester.js:539-585 | a count or skip right after a count or skip does nothing |
| Session.NoDecisionUntilNextDraw | tester.js:539-585 | once nothing is countable, no sequence of events without a draw makes a card countable again, so count and skip stay no-ops until the next draw |
| Session.DrawAll | tester.js:512-537 | drawing through the draw handler as many times as there are cards returns exactly what the successive draws report, yields every card exactly once and empties the deck, so the next draw finds nothing |
| Session.DrawMany | tester.js:512-537 | successive draws from a deck without repeats report distinct ids, one per draw, and drawn plus remaining cards are exactly the original cards |
| Session.DrawThenCountScenario | tester.js:512-570 | from page load, player 1 draws card 7 (Perception) and counts it: player 1 has 1 point and player 2 moves |
| Session.FullMeterSpinScenario | tester.js:346-379 | player 1 with 3 points opens wheel 3 and spins onto slice 2: the reveal shows that prompt, empties the meter and passes the turn |
| Session.ReopenDuringSpin | tester.js:323-347 | opening a wheel during a spin lets a second spin start, leaving two reveals pending |
| Session.RevealKeepsCardCountable | tester.js:365-379 | a reveal passes the turn without clearing the count flag, so a card drawn before a spin can be counted by the other player, who earns the point |

## Left out

- DOM updates, CSS classes, ARIA attributes and the card, level and question animations (tester.js:180-199, 222-251, 271-318). They are presentation only. The mystery overlay's visibility is left out for the same reason.
- Canvas drawing: `drawWheel`, `drawSliceText`, `wrapLines` and `roundRect` (tester.js:382-507). They depend on the browser's text measurement and floating-point geometry.
- The 60-second countdown and the vibration calls (tester.js:141-170). They are real-time I/O.
- `localStorage` reads and writes and the `prompt()` dialog. The stored names and the dialog's answer are parameters: `Init` takes the stored names and `Rename` takes the answer.
- `Math.random`. It becomes the index arguments `k` and `choice`, each with a range precondition.
- Question and wheel prompt texts. They are opaque: a card is its id and a prompt is its (level, slot) pair.
- Game.SpinStart: requires a valid slice index, so it cannot be called before any wheel has been opened. In the script the item list is then empty and the rotation arithmetic produces NaN. That state is not reachable from the page, because the spin button lives inside the wheel dialog.
- Names.CleanName: counts characters as Unicode scalar values. JavaScript's `trim` and `slice` count UTF-16 code units, so a name containing characters outside the Basic Multilingual Plane can be cut at a different place.
- Game.Init: the wheel dialog's initial visibility comes from the page markup, which is not part of this model. `wheelOpen` starts false, as the dialog starts hidden there.
- Game.Valid: constrains the active player to 1 or 2, and two fields replace the `progress` object. The script would add a fresh key to `progress` for any other player value, but no handler produces one.
- Wheel.CenterWithinTurn: uses exact real arithmetic. The script computes angles in IEEE doubles. For the five-item wheels every angle involved is a multiple of 18 degrees and the doubles are exact, but for a general item count the lemma describes exact arithmetic, not the script's rounding.
- Wheel.SpinAdvances: same exact-arithmetic caveat as Wheel.CenterWithinTurn. The bounds are exact for five items; for a general item count they ignore rounding.
- Wheel.LandingAngle: same exact-arithmetic caveat. For a general item count the resting angle can differ from the previous rotation (mod 360) by rounding error in the script.
