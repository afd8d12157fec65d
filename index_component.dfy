/** The state of the `Index` component (src/pages/Index.tsx:169-188) that
    carries rules: the feed cursor with its swipe marker, the meeting list,
    the balance and the meeting shown as active. The only transition the
    component wires up is the swipe; the other fields keep their initial
    values for the life of the screen. */
module IndexComponent {

  import opened Wrappers
  import opened IndexTypes
  import opened ActivityFeed
  import opened MeetingSelectors

  class IndexState {
    /** The proposals of the feed, fixed at mount. */
    const activities: seq<Activity>
    var currentActivityIndex: nat
    /** The gesture being animated, cleared once the card has moved on. */
    var swipeDirection: Option<SwipeDirection>
    var meetings: seq<Meeting>
    var mindfulnessPoints: int
    var activeMeeting: Option<Meeting>

    /** The cursor always designates a proposal. */
    ghost predicate Valid()
      reads this
    {
      currentActivityIndex < |activities|
    }

    /** The `useState` initial values. The screen mounts with the four sample
        proposals, the two sample meetings and 380 points; it renders
        `activities[currentActivityIndex]` at once, so the feed must not be
        empty. */
    constructor (activities: seq<Activity>, meetings: seq<Meeting>, points: int)
      requires |activities| > 0
      ensures Valid()
      ensures this.activities == activities && this.meetings == meetings
      ensures currentActivityIndex == 0 && swipeDirection == None
      ensures mindfulnessPoints == points
      ensures activeMeeting == FirstActive(meetings)
    {
      this.activities := activities;
      currentActivityIndex := 0;
      swipeDirection := None;
      this.meetings := meetings;
      mindfulnessPoints := points;
      activeMeeting := FirstActive(meetings);
    }

    /** The proposal on the card. */
    function CurrentActivity(): (activity: Activity)
      reads this
      requires Valid()
      ensures activity in activities
    {
      activities[currentActivityIndex]
    }

    /** First half of a swipe: the gesture is recorded so that the card can
        fly out to its side; the cursor has not moved yet. */
    method BeginSwipe(direction: SwipeDirection)
      requires Valid()
      modifies this`swipeDirection
      ensures Valid()
      ensures swipeDirection == Some(direction)
    {
      swipeDirection := Some(direction);
    }

    /** Second half of a swipe, run once the animation delay has passed: the
        cursor advances, wrapping after the last proposal, and the marker is
        cleared. The outcome does not depend on the recorded gesture. */
    method SettleSwipe()
      requires Valid()
      modifies this`currentActivityIndex, this`swipeDirection
      ensures Valid()
      ensures currentActivityIndex == NextIndex(old(currentActivityIndex), |activities|)
      ensures currentActivityIndex == (old(currentActivityIndex) + 1) % |activities|
      ensures swipeDirection == None
    {
      NextIndexIsSuccessorModulo(currentActivityIndex, |activities|);
      if currentActivityIndex < |activities| - 1 {
        currentActivityIndex := currentActivityIndex + 1;
      } else {
        currentActivityIndex := 0;
      }
      swipeDirection := None;
    }

    /** A whole swipe, taken as one step. Left (reject) and right (accept)
        move the cursor alike, and nothing but the cursor and the marker
        changes: the meetings, the balance and the active meeting stay. */
    method HandleSwipe(direction: SwipeDirection)
      requires Valid()
      modifies this`currentActivityIndex, this`swipeDirection
      ensures Valid()
      ensures currentActivityIndex == NextIndex(old(currentActivityIndex), |activities|)
      ensures currentActivityIndex == (old(currentActivityIndex) + 1) % |activities|
      ensures swipeDirection == None
    {
      BeginSwipe(direction);
      SettleSwipe();
    }
  }

  /** Four swipes from a freshly mounted screen, in any mix of directions,
      bring the first sample proposal back, while the meeting state is the
      one the screen was mounted with. */
  method FourSwipesFromMount(gestures: seq<SwipeDirection>) returns (index: nat, points: int, active: Option<Meeting>)
    requires |gestures| == 4
    ensures index == 0
    ensures points == InitialPoints
    ensures active == Some(MockMeetings[0])
  {
    var screen := new IndexState(MockActivities, MockMeetings, InitialPoints);
    screen.HandleSwipe(gestures[0]);
    screen.HandleSwipe(gestures[1]);
    screen.HandleSwipe(gestures[2]);
    screen.HandleSwipe(gestures[3]);
    SampleSelections();
    index, points, active := screen.currentActivityIndex, screen.mindfulnessPoints, screen.activeMeeting;
  }
}
