/** The advance policy of the discovery feed (src/pages/Index.tsx:181-185):
    after a swipe the cursor moves to the next proposal, and from the last
    proposal back to the first. */
module ActivityFeed {

  /** The index after one swipe over a feed of `length` proposals. The test
      compares with `length - 1` as the source does, so an index at or past
      the last position wraps to 0. */
  function NextIndex(index: nat, length: nat): (next: nat)
    ensures index < length ==> next < length
    ensures next == 0 || next == index + 1
    ensures next == index + 1 <==> index + 1 < length
  {
    if index < length - 1 then index + 1 else 0
  }

  /** The index after `swipes` consecutive swipes. */
  function Advance(index: nat, length: nat, swipes: nat): nat
  {
    if swipes == 0 then index else NextIndex(Advance(index, length, swipes - 1), length)
  }

  /** One swipe is the successor modulo the feed length: the cyclic queue
      never runs out. */
  lemma NextIndexIsSuccessorModulo(index: nat, length: nat)
    requires index < length
    ensures NextIndex(index, length) == (index + 1) % length
  {
  }

  /** Any number of swipes keeps the cursor inside the feed and lands on
      the start index plus the number of swipes, modulo the feed length. */
  lemma {:induction false} AdvanceIsModular(index: nat, length: nat, swipes: nat)
    requires index < length
    ensures Advance(index, length, swipes) == (index + swipes) % length
    ensures Advance(index, length, swipes) < length
  {
    if swipes > 0 {
      var before := Advance(index, length, swipes - 1);
      AdvanceIsModular(index, length, swipes - 1);
      NextIndexIsSuccessorModulo(before, length);
      ModuloSuccessor(index + swipes - 1, length);
    }
  }

  /** Taking the successor commutes with reduction modulo `length`. */
  lemma ModuloSuccessor(k: nat, length: nat)
    requires length > 0
    ensures (k % length + 1) % length == (k + 1) % length
  {
    var q, r := k / length, k % length;
    if r + 1 < length {
      ModuloOfDecomposition(k + 1, length, q, r + 1);
    } else {
      assert (q + 1) * length == q * length + length;
      ModuloOfDecomposition(k + 1, length, q + 1, 0);
    }
  }

  /** The remainder is the unique `r` of any decomposition `a == q * n + r`. */
  lemma ModuloOfDecomposition(a: int, n: int, q: int, r: int)
    requires n > 0 && 0 <= r < n && a == q * n + r
    ensures a % n == r
  {
    var q', r' := a / n, a % n;
    assert a == q' * n + r';
    assert (q' - q) * n == r - r';
    if q' > q {
      ProductAtLeast(q' - q, n);
    } else if q > q' {
      ProductAtLeast(q - q', n);
    }
  }

  lemma ProductAtLeast(x: int, n: int)
    requires x >= 1 && n > 0
    ensures x * n >= n
  {
  }

  /** A full pass of `length` swipes returns to where it started. */
  lemma FullPassReturnsToStart(index: nat, length: nat)
    requires index < length
    ensures Advance(index, length, length) == index
  {
    AdvanceIsModular(index, length, length);
    ModuloOfDecomposition(index + length, length, 1, index);
  }

  /** Before the end of the feed is reached, swiping only counts up: the
      cursor wraps exactly when it passes the last proposal. */
  lemma {:induction false} NoWrapBeforeTheEnd(index: nat, length: nat, swipes: nat)
    requires index + swipes < length
    ensures Advance(index, length, swipes) == index + swipes
  {
    AdvanceIsModular(index, length, swipes);
    ModuloOfDecomposition(index + swipes, length, 0, index + swipes);
  }

  /** A single-proposal feed swipes to itself. */
  lemma SingleProposalSwipesToItself()
    ensures NextIndex(0, 1) == 0
  {
  }
}
