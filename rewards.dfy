/** The claim button of a partner reward (src/pages/Index.tsx:512-518). The
    button has no click handler, so claiming changes nothing; what the screen
    decides is whether the button is enabled and which caption it shows. Both
    are computed from the balance by two separately written comparisons. */
module Rewards {

  import opened IndexTypes

  /** The caption of an affordable reward ("Claim"). */
  const ClaimLabel: string := "Получить"
  /** The caption of a reward the balance does not cover ("Not enough"). */
  const ShortfallLabel: string := "Не хватает"

  datatype ClaimButton = ClaimButton(disabled: bool, caption: string)

  /** The button as rendered for `reward` when the balance is `points`. */
  function RenderClaimButton(points: int, reward: Reward): (button: ClaimButton)
    ensures !button.disabled <==> points >= reward.pointsCost
    ensures button.caption == ClaimLabel <==> !button.disabled
    ensures button.caption == ShortfallLabel <==> button.disabled
  {
    ClaimButton(
      points < reward.pointsCost,
      if points >= reward.pointsCost then ClaimLabel else ShortfallLabel)
  }

  /** Whether the balance covers the reward. */
  predicate Affordable(points: int, reward: Reward)
  {
    points >= reward.pointsCost
  }

  /** The rewards the balance covers, in catalogue order. */
  function AffordableRewards(points: int, rewards: seq<Reward>): (affordable: seq<Reward>)
    ensures |affordable| <= |rewards|
    ensures forall r :: r in affordable <==> r in rewards && Affordable(points, r)
  {
    if rewards == [] then []
    else if Affordable(points, rewards[0]) then [rewards[0]] + AffordableRewards(points, rewards[1..])
    else AffordableRewards(points, rewards[1..])
  }

  /** A larger balance never disables a button that a smaller one enabled. */
  lemma {:induction false} AffordabilityIsMonotonic(points: int, more: int, rewards: seq<Reward>)
    requires points <= more
    ensures |AffordableRewards(points, rewards)| <= |AffordableRewards(more, rewards)|
    ensures forall r :: r in AffordableRewards(points, rewards) ==> r in AffordableRewards(more, rewards)
  {
    if rewards != [] {
      AffordabilityIsMonotonic(points, more, rewards[1..]);
    }
  }

  /** With the starting balance of 380 every reward of the catalogue (priced
      100 to 300) can be claimed, and with 199 only the coffee can. */
  lemma StartingBalanceAffordsEveryReward()
    ensures forall r :: r in AvailableRewards ==> RenderClaimButton(InitialPoints, r) == ClaimButton(false, ClaimLabel)
    ensures AffordableRewards(InitialPoints, AvailableRewards) == AvailableRewards
    ensures AffordableRewards(199, AvailableRewards) == [AvailableRewards[2]]
  {
  }
}
