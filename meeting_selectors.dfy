/** The two views the screen derives from the meeting list: the meeting
    shown as active on first render (`find`, src/pages/Index.tsx:176) and
    the history of finished meetings (`filter`, src/pages/Index.tsx:445). */
module MeetingSelectors {

  import opened Wrappers
  import opened IndexTypes

  /** The first meeting whose status is active, or none. */
  function FirstActive(meetings: seq<Meeting>): (found: Option<Meeting>)
    ensures found.None? <==> forall i :: 0 <= i < |meetings| ==> meetings[i].status != Active
    ensures found.Some? ==>
      exists i :: 0 <= i < |meetings| && meetings[i] == found.value && found.value.status == Active
        && forall j :: 0 <= j < i ==> meetings[j].status != Active
  {
    if meetings == [] then None
    else if meetings[0].status == Active then Some(meetings[0])
    else
      var rest := FirstActive(meetings[1..]);
      assert forall i :: 1 <= i < |meetings| ==> meetings[i] == meetings[1..][i - 1];
      rest
  }

  /** The meetings listed under "meeting history". */
  function CompletedHistory(meetings: seq<Meeting>): (history: seq<Meeting>)
    ensures |history| <= |meetings|
    ensures forall i :: 0 <= i < |history| ==> history[i].status == Completed
    ensures forall m :: m in meetings && m.status == Completed ==> m in history
  {
    if meetings == [] then []
    else if meetings[0].status == Completed then [meetings[0]] + CompletedHistory(meetings[1..])
    else CompletedHistory(meetings[1..])
  }

  /** The history keeps every completed meeting as often as the list has it
      and nothing else. */
  lemma {:induction false} HistoryCountsCompleted(meetings: seq<Meeting>, m: Meeting)
    ensures multiset(CompletedHistory(meetings))[m] ==
      if m.status == Completed then multiset(meetings)[m] else 0
  {
    if meetings != [] {
      HistoryCountsCompleted(meetings[1..], m);
      assert meetings == [meetings[0]] + meetings[1..];
    }
  }

  /** The history keeps the list's order: filtering a list made of two parts
      gives the history of the first part followed by that of the second. */
  lemma {:induction false} HistoryKeepsOrder(first: seq<Meeting>, second: seq<Meeting>)
    ensures CompletedHistory(first + second) == CompletedHistory(first) + CompletedHistory(second)
  {
    if first == [] {
      assert first + second == second;
    } else {
      assert (first + second)[1..] == first[1..] + second;
      HistoryKeepsOrder(first[1..], second);
    }
  }

  /** Filtering the history again changes nothing. */
  lemma {:induction false} HistoryIsIdempotent(meetings: seq<Meeting>)
    ensures CompletedHistory(CompletedHistory(meetings)) == CompletedHistory(meetings)
  {
    if meetings != [] {
      HistoryIsIdempotent(meetings[1..]);
    }
  }

  /** No meeting is both the first active one and part of the history. */
  lemma ActiveNeverInHistory(meetings: seq<Meeting>)
    ensures FirstActive(meetings).Some? ==> FirstActive(meetings).value !in CompletedHistory(meetings)
  {
  }

  /** On the sample data the active meeting is Anna's and the history holds
      Maxim's meeting alone. */
  lemma SampleSelections()
    ensures FirstActive(MockMeetings) == Some(MockMeetings[0])
    ensures CompletedHistory(MockMeetings) == [MockMeetings[1]]
  {
  }
}
