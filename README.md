# Engagement state of the friendship-connection Index screen

The Index screen of the friendship-connection app lets a user swipe through
activity proposals, follows an "offline" meeting towards a two-hour reward
target, lists finished meetings and offers partner rewards for mindfulness
points. Almost all of `src/pages/Index.tsx` is markup; this project models
the part of it that carries rules:

- the feed cursor: `handleSwipe` records the gesture, moves
  `currentActivityIndex` to the next proposal (back to the first after the
  last one) and clears `swipeDirection`. It is the class
  `IndexComponent.IndexState`, whose methods change only the two fields the
  handler sets, and the functions `ActivityFeed.NextIndex` / `Advance`;
- the progress read-outs of the active meeting against the 120-minute target:
  the rounded, unclamped percentage, the bar width capped at 100 and the
  remaining minutes floored at 0 (`MeetingProgress`);
- the claim button of each reward, enabled and captioned by comparing the
  balance with the reward's price (`Rewards`);
- the meeting shown as active at mount (`find`) and the history of completed
  meetings (`filter`) (`MeetingSelectors`);
- the records and the sample data the screen starts from (`IndexTypes`).

The screen wires up no other transition: the meeting list, the balance and
the active meeting are set once at mount and never changed, the pause, end
and claim buttons have no handler. A points ledger with debits, reward
redemption, completing or failing a meeting, an inventory with equip slots
and character levels are described for this system as a design but do not
exist in this code; the model follows the code and has none of them.

Durations are whole minutes. The ratio `duration / 120 * 100` is stated over
exact reals (`MeetingProgress.ExactPercent`), `Math.round` as
`floor(x + 0.5)`, and the integer formula the model uses for the label,
`(5 * duration + 3) / 6`, is proved equal to it.

## Model

| member | source | states |
|---|---|---|
| `ActivityFeed.NextIndex` | src/pages/Index.tsx:181-185 | from an index inside the feed the next index stays inside; it is either the successor or 0, and the successor exactly when that is still a valid position |
| `ActivityFeed.NextIndexIsSuccessorModulo` | src/pages/Index.tsx:181-185 | one swipe moves the cursor to `(index + 1) mod length`: the feed is a cycle and never runs out |
| `ActivityFeed.AdvanceIsModular` | src/pages/Index.tsx:178-188 | after any number of swipes from a valid index the cursor is at `(index + swipes) mod length`, hence always inside the feed |
| `ActivityFeed.FullPassReturnsToStart` | src/pages/Index.tsx:181-185 | `length` swipes bring the cursor back to its starting proposal (four swipes over the four sample proposals return to the first) |
| `ActivityFeed.NoWrapBeforeTheEnd` | src/pages/Index.tsx:181-185 | while the end of the feed is not passed the cursor only counts up; it wraps only after the last proposal |
| `ActivityFeed.SingleProposalSwipesToItself` | src/pages/Index.tsx:181-185 | a one-proposal feed swipes to the same proposal |
| `IndexComponent.IndexState.constructor` | src/pages/Index.tsx:171-176 | the screen mounts on the first proposal with no gesture recorded, the given meetings and balance, and the first active meeting as `activeMeeting` |
| `IndexComponent.IndexState.CurrentActivity` | src/pages/Index.tsx:190 | the card always shows one of the feed's proposals |
| `IndexComponent.IndexState.BeginSwipe` | src/pages/Index.tsx:178-179 | the gesture is recorded in `swipeDirection`; nothing else changes |
| `IndexComponent.IndexState.SettleSwipe` | src/pages/Index.tsx:180-187 | the cursor moves to the next index, wrapping to 0 after the last one, stays valid, and the marker is cleared; only those two fields change |
| `IndexComponent.IndexState.HandleSwipe` | src/pages/Index.tsx:178-188 | a whole swipe: left and right move the cursor identically, to `(index + 1) mod length`; the marker ends cleared; meetings, balance and active meeting are untouched |
| `IndexComponent.FourSwipesFromMount` | src/pages/Index.tsx:171-188 | from the mounted sample screen, four swipes in any directions return to the first proposal with 380 points and the sample active meeting unchanged |
| `MeetingProgress.ProgressPercent` | src/pages/Index.tsx:416 | the label is the integer nearest to five sixths of the duration, halves rounded up (`6p - 3 <= 5d < 6p + 3`) |
| `MeetingProgress.ProgressPercentIsRoundedShare` | src/pages/Index.tsx:416 | the label equals `Math.round(duration / 120 * 100)` over exact reals |
| `MeetingProgress.ProgressPercentAgainstTarget` | src/pages/Index.tsx:416 | the label is not clamped: it reaches 100 exactly at 120 minutes and exceeds 100 exactly past them |
| `MeetingProgress.ProgressPercentMonotonic` | src/pages/Index.tsx:416 | a longer meeting never shows a smaller percentage |
| `MeetingProgress.BarWidth` | src/pages/Index.tsx:421 | the bar is the smaller of the exact share and 100: between 0 and 100, never above the share, and full exactly from 120 minutes on |
| `MeetingProgress.RemainingMinutes` | src/pages/Index.tsx:425 | the countdown is never negative, is 0 exactly from 120 minutes on, and otherwise adds up with the duration to 120 |
| `MeetingProgress.ProgressReadoutsAgree` | src/pages/Index.tsx:416-425 | countdown at 0, full bar and a label of at least 100 happen together; before the target the bar width is the share of the 120 minutes already spent |
| `MeetingProgress.SampleMeetingsProgress` | src/pages/Index.tsx:104-128 | the 45-minute sample shows 38%, a 37.5% bar and 75 minutes left; the 135-minute one shows 113%, a full bar and 0 left |
| `Rewards.RenderClaimButton` | src/pages/Index.tsx:512-518 | the button is enabled exactly when the balance covers the price, and it reads "Получить" exactly when it is enabled and "Не хватает" exactly when it is disabled |
| `Rewards.AffordableRewards` | src/pages/Index.tsx:489-518 | the rewards whose buttons are enabled are exactly the catalogue entries the balance covers |
| `Rewards.AffordabilityIsMonotonic` | src/pages/Index.tsx:515-517 | a larger balance enables every button a smaller one enabled |
| `Rewards.StartingBalanceAffordsEveryReward` | src/pages/Index.tsx:130-175 | with the starting 380 points all four rewards (100 to 300) show an enabled "Получить" button; with 199 only the coffee does |
| `MeetingSelectors.FirstActive` | src/pages/Index.tsx:176 | the result is absent exactly when no meeting is active, and otherwise is the active meeting with no active meeting before it |
| `MeetingSelectors.CompletedHistory` | src/pages/Index.tsx:445 | the history holds only completed meetings and every completed meeting of the list |
| `MeetingSelectors.HistoryCountsCompleted` | src/pages/Index.tsx:445 | each meeting appears in the history as many times as in the list if it is completed, and not at all otherwise |
| `MeetingSelectors.HistoryKeepsOrder` | src/pages/Index.tsx:445 | the history of a concatenation is the concatenation of the histories: the list's order is kept |
| `MeetingSelectors.HistoryIsIdempotent` | src/pages/Index.tsx:445 | filtering the history again changes nothing |
| `MeetingSelectors.ActiveNeverInHistory` | src/pages/Index.tsx:176 | the meeting shown as active is never listed in the history |
| `MeetingSelectors.SampleSelections` | src/pages/Index.tsx:104-128 | on the sample data Anna's meeting is the active one and Maxim's is the whole history |

## Left out

- Rendering, styling, icons, avatars, dialogs and the tab bar (`activeTab`): presentation only, no rule.
- The 300 ms `setTimeout` and React's asynchronous state updates: a swipe is modelled as `BeginSwipe` followed by `SettleSwipe`, each one atomic step. The handler tests the index captured by its closure but increments through `prev => prev + 1`; two taps within the delay could interleave, and that race is not modelled.
- The "create request" form and `userActivities`: the inputs are not wired and the list is never set.
- Points credit and debit, claiming a reward, pausing, ending, completing or failing a meeting, purchases, equipping and levels: the code has no handler for any of them (`setMeetings`, `setMindfulnessPoints` and `setActiveMeeting` are never called), so there is nothing to model.
- Invariants of meetings that only a design states (at most one active meeting, a reward only on a completed meeting): the code never creates or changes a meeting, so no operation could keep or break them.
- `startTime`: a clock reading that no rule uses.
- ProgressPercent: computed over exact reals and whole minutes; the IEEE double rounding of `duration / 120 * 100` at an exact half, and negative or fractional durations, are not modelled.
- BarWidth: an exact real, not the double the style string receives.

