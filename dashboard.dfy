/**
  The learner dashboard (src/components/Dashboard.tsx): the topic list with per-topic progress,
  the experience-point total, and the selected topic, which replaces the dashboard by the
  lesson viewer while it is set. Completing a lesson marks its topic done and awards 500 XP.
*/
module Dashboard {
  import opened Wrappers
  import opened Lessons

  /** A topic card; its description is display-only and not modelled. */
  datatype Topic = Topic(id: string, title: string, difficulty: Difficulty, progress: nat, recommended: bool, completed: bool)

  const InitialTopics: seq<Topic> := [
    Topic("1", "Object-Oriented Programming", Intermediate, 65, true, false),
    Topic("2", "Exception Handling", Intermediate, 30, true, false),
    Topic("3", "Collections Framework", Advanced, 0, true, false),
    Topic("4", "Multithreading", Advanced, 10, false, false)
  ]

  const InitialXP: int := 2840

  /** The experience points a completed lesson awards. */
  const LessonXP: int := 500

  /** The ids of a topic list, in order. */
  function Ids(ts: seq<Topic>): (ids: seq<string>)
    ensures |ids| == |ts| && forall k :: 0 <= k < |ts| ==> ids[k] == ts[k].id
  {
    if ts == [] then [] else [ts[0].id] + Ids(ts[1..])
  }

  /** Every progress value is a percentage. */
  predicate ProgressInRange(ts: seq<Topic>)
  {
    forall k :: 0 <= k < |ts| ==> ts[k].progress <= 100
  }

  /** A completed topic shows a full progress bar. */
  predicate CompletedAreFull(ts: seq<Topic>)
  {
    forall k :: 0 <= k < |ts| ==> ts[k].completed ==> ts[k].progress == 100
  }

  /** The update `handleLessonComplete` applies to the topic list: the matching topics become complete at 100%. */
  function CompleteTopic(ts: seq<Topic>, id: string): (r: seq<Topic>)
    ensures |r| == |ts|
    ensures forall k :: 0 <= k < |ts| && ts[k].id == id ==> r[k] == ts[k].(progress := 100, completed := true)
    ensures forall k :: 0 <= k < |ts| && ts[k].id != id ==> r[k] == ts[k]
  {
    if ts == [] then []
    else [if ts[0].id == id then ts[0].(progress := 100, completed := true) else ts[0]] + CompleteTopic(ts[1..], id)
  }

  /** Completing keeps the ids and their order, and keeps progress in range and completed topics full. */
  lemma CompleteTopicPreserves(ts: seq<Topic>, id: string)
    ensures Ids(CompleteTopic(ts, id)) == Ids(ts)
    ensures ProgressInRange(ts) ==> ProgressInRange(CompleteTopic(ts, id))
    ensures CompletedAreFull(ts) ==> CompletedAreFull(CompleteTopic(ts, id))
  {
  }

  /** Completing the same topic twice is the same as completing it once. */
  lemma CompleteTopicIdempotent(ts: seq<Topic>, id: string)
    ensures CompleteTopic(CompleteTopic(ts, id), id) == CompleteTopic(ts, id)
  {
  }

  /** An id no topic carries leaves the list as it is. */
  lemma CompleteUnknownTopic(ts: seq<Topic>, id: string)
    requires id !in Ids(ts)
    ensures CompleteTopic(ts, id) == ts
  {
    assert forall k :: 0 <= k < |ts| ==> ts[k].id != id by {
      forall k | 0 <= k < |ts|
        ensures ts[k].id != id
      {
        assert Ids(ts)[k] == ts[k].id;
      }
    }
  }

  /** `topics.filter(t => t.completed).length`. */
  function CompletedCount(ts: seq<Topic>): (n: nat)
    ensures n <= |ts|
  {
    if ts == [] then 0 else (if ts[0].completed then 1 else 0) + CompletedCount(ts[1..])
  }

  /** No topic completed, no count; every topic completed, full count. */
  lemma {:induction false} CompletedCountExtremes(ts: seq<Topic>)
    ensures CompletedCount(ts) == 0 <==> forall k :: 0 <= k < |ts| ==> !ts[k].completed
    ensures CompletedCount(ts) == |ts| <==> forall k :: 0 <= k < |ts| ==> ts[k].completed
  {
    if ts != [] {
      CompletedCountExtremes(ts[1..]);
      assert forall k :: 1 <= k < |ts| ==> ts[k] == ts[1..][k - 1];
    }
  }

  /** The completed count after completing `id`, split at the first topic. */
  lemma CompletedCountCons(ts: seq<Topic>, id: string)
    requires ts != []
    ensures CompletedCount(CompleteTopic(ts, id)) ==
      (if ts[0].id == id || ts[0].completed then 1 else 0) + CompletedCount(CompleteTopic(ts[1..], id))
  {
    var head := if ts[0].id == id then ts[0].(progress := 100, completed := true) else ts[0];
    var rest := CompleteTopic(ts[1..], id);
    assert CompleteTopic(ts, id) == [head] + rest;
    assert ([head] + rest)[1..] == rest;
  }

  /**
    Completing a topic whose id occurs once and which is not yet complete raises the count by one;
    completing an already completed topic leaves it unchanged.
  */
  lemma {:induction false} CompletedCountAfterComplete(ts: seq<Topic>, i: nat)
    requires i < |ts| && forall k :: 0 <= k < |ts| && k != i ==> ts[k].id != ts[i].id
    ensures CompletedCount(CompleteTopic(ts, ts[i].id)) == CompletedCount(ts) + (if ts[i].completed then 0 else 1)
  {
    var id, tail := ts[i].id, ts[1..];
    CompletedCountCons(ts, id);
    if i == 0 {
      forall k | 0 <= k < |tail|
        ensures tail[k].id != id
      {
        assert tail[k] == ts[k + 1];
      }
      assert id !in Ids(tail);
      CompleteUnknownTopic(tail, id);
    } else {
      assert tail[i - 1] == ts[i];
      forall k | 0 <= k < |tail| && k != i - 1
        ensures tail[k].id != id
      {
        assert tail[k] == ts[k + 1];
      }
      CompletedCountAfterComplete(tail, i - 1);
    }
  }

  /** A fraction of a whole, as a real, lies in [0, 1] and is 0 or 1 exactly at the ends. */
  lemma Fraction(n: nat, d: nat)
    requires 0 < n <= d || (n == 0 < d)
    ensures 0.0 <= n as real / d as real <= 1.0
    ensures n as real / d as real == 0.0 <==> n == 0
    ensures n as real / d as real == 1.0 <==> n == d
  {
    var q, dr := n as real / d as real, d as real;
    assert q * dr == n as real;
  }

  /** The "Completed" card: `Math.round(completed / topics.length * 100)`, `None` for the NaN of an empty list. */
  function CompletedPercent(ts: seq<Topic>): (r: Option<int>)
    ensures r.None? <==> ts == []
    ensures r.Some? ==> 0 <= r.value <= 100
    ensures r.Some? && CompletedCount(ts) == |ts| ==> r.value == 100
    ensures r.Some? && CompletedCount(ts) == 0 ==> r.value == 0
  {
    if ts == [] then None
    else
      Fraction(CompletedCount(ts), |ts|);
      Some(Round(CompletedCount(ts) as real / |ts| as real * 100.0))
  }

  /** With four topics, each completed topic is worth exactly 25 points of the percentage. */
  lemma FourTopicsPercent(ts: seq<Topic>)
    requires |ts| == 4
    ensures CompletedPercent(ts) == Some(25 * CompletedCount(ts))
  {
    var n := CompletedCount(ts);
    assert n as real / 4.0 * 100.0 == (25 * n) as real;
  }

  /** The starting list: ids "1" to "4", every percentage in range, nothing completed yet. */
  lemma InitialTopicsFresh()
    ensures Ids(InitialTopics) == ["1", "2", "3", "4"]
    ensures ProgressInRange(InitialTopics) && CompletedAreFull(InitialTopics)
    ensures CompletedCount(InitialTopics) == 0 && CompletedPercent(InitialTopics) == Some(0)
  {
    var ts := InitialTopics;
    assert !ts[0].completed && !ts[1].completed && !ts[2].completed && !ts[3].completed;
    CompletedCountExtremes(ts);
    FourTopicsPercent(ts);
  }

  /** Completing topic "1" on the starting list leaves one topic of four completed: 25%. */
  lemma CompleteFirstTopic()
    ensures CompletedCount(CompleteTopic(InitialTopics, "1")) == 1
    ensures CompletedPercent(CompleteTopic(InitialTopics, "1")) == Some(25)
  {
    var ts := InitialTopics;
    assert forall k :: 0 <= k < |ts| && k != 0 ==> ts[k].id != ts[0].id;
    InitialTopicsFresh();
    CompletedCountAfterComplete(ts, 0);
    FourTopicsPercent(CompleteTopic(ts, "1"));
  }

  /** What the dashboard renders: its own overview, or the lesson viewer for the selected topic. */
  datatype Screen = Overview | LessonScreen(topicId: string)

  /** The dashboard's state. */
  class Board {
    var topics: seq<Topic>
    var totalXP: int
    var selected: Option<string>

    /** The topic list keeps its four ids, percentages stay in range and completed topics show 100%. */
    ghost predicate Valid()
      reads this
    {
      Ids(topics) == ["1", "2", "3", "4"] && ProgressInRange(topics) && CompletedAreFull(topics) && totalXP >= InitialXP
    }

    constructor()
      ensures Valid()
      ensures topics == InitialTopics && totalXP == InitialXP && selected == None
    {
      topics := InitialTopics;
      totalXP := InitialXP;
      selected := None;
      assert Ids(InitialTopics) == ["1", "2", "3", "4"];
    }

    /** `if (selectedTopic)`: the empty string is falsy, so selecting it still shows the overview. */
    function Showing(): (s: Screen)
      reads this
      ensures s.LessonScreen? <==> selected.Some? && selected.value != ""
      ensures s.LessonScreen? ==> s.topicId == selected.value
    {
      if selected.Some? && selected.value != "" then LessonScreen(selected.value) else Overview
    }

    /** `handleTopicClick`: selects the topic of the clicked card. */
    method HandleTopicClick(topicId: string)
      requires Valid()
      modifies this
      ensures Valid() && selected == Some(topicId)
      ensures topics == old(topics) && totalXP == old(totalXP)
    {
      selected := Some(topicId);
    }

    /** `handleBackToDashboard`: returns to the overview. */
    method HandleBackToDashboard()
      requires Valid()
      modifies this
      ensures Valid() && selected == None
      ensures topics == old(topics) && totalXP == old(totalXP)
    {
      selected := None;
    }

    /** `handleLessonComplete`: marks the topic complete, awards the lesson XP and returns to the overview. */
    method HandleLessonComplete(topicId: string)
      requires Valid()
      modifies this
      ensures Valid() && selected == None
      ensures topics == CompleteTopic(old(topics), topicId)
      ensures totalXP == old(totalXP) + LessonXP
    {
      CompleteTopicPreserves(topics, topicId);
      topics := CompleteTopic(topics, topicId);
      totalXP := totalXP + LessonXP;
      selected := None;
    }
  }

  /** Topic "4" has a card but no lesson: opening it shows "Lesson Not Found". */
  lemma MultithreadingHasNoLesson()
    ensures InitialTopics[3].id == "4" && Lookup(InitialTopics[3].id).None?
  {
  }

  /**
    A learner opens the object-oriented topic, marks each of its six sections complete, moving on
    after each; marking the last one completes the lesson. The dashboard is back on the overview
    with that topic complete, one topic of four done and 500 XP more.
  */
  method CompleteObjectOrientedLesson() returns (xp: int, done: nat, percent: Option<int>, screen: Screen)
    ensures xp == InitialXP + LessonXP && done == 1 && percent == Some(25) && screen == Overview
  {
    var board := new Board();
    board.HandleTopicClick("1");
    var fired, _ := ReadObjectOrientedLesson();
    board.HandleLessonComplete(fired.value);
    CompleteFirstTopic();
    xp, done, percent, screen := board.totalXP, CompletedCount(board.topics), CompletedPercent(board.topics), board.Showing();
  }
}
