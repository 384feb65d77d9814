/**
  The lesson viewer (src/components/LessonViewer.tsx): a fixed catalog of lessons keyed by
  topic id, and the viewer's state, which is the selected section and the set of sections
  marked complete. Finishing the last section hands the topic id back to the dashboard.
*/
module Lessons {
  import opened Wrappers

  datatype Difficulty = Beginner | Intermediate | Advanced

  /** A section of a lesson; its prose, code examples and key points are display-only and not modelled. */
  datatype Section = Section(id: string, title: string)

  /** A lesson; its description, estimated time and objectives are display-only and not modelled. */
  datatype Lesson = Lesson(id: string, title: string, difficulty: Difficulty, sections: seq<Section>)

  /** The lessons the viewer knows about, keyed by topic id. */
  const Catalog: map<string, Lesson> := map[
    "1" := Lesson("1", "Object-Oriented Programming", Intermediate, [
      Section("intro", "Introduction to OOP"),
      Section("classes-objects", "Classes and Objects"),
      Section("encapsulation", "Encapsulation"),
      Section("inheritance", "Inheritance"),
      Section("polymorphism", "Polymorphism"),
      Section("abstraction", "Abstraction")
    ]),
    "2" := Lesson("2", "Exception Handling", Intermediate, [
      Section("intro", "Introduction to Exceptions")
    ]),
    "3" := Lesson("3", "Collections Framework", Advanced, [
      Section("intro", "Introduction to Collections")
    ])
  ]

  /** `lessons[topicId]`: the lesson for a topic id, or `None`, which the viewer shows as "Lesson Not Found". */
  function Lookup(topicId: string): (r: Option<Lesson>)
    ensures r.Some? <==> topicId in Catalog
  {
    if topicId in Catalog then Some(Catalog[topicId]) else None
  }

  /** Exactly the topic ids "1", "2" and "3" have a lesson. */
  lemma LookupFound(topicId: string)
    ensures Lookup(topicId).Some? <==> topicId == "1" || topicId == "2" || topicId == "3"
  {
  }

  /** Every catalog entry carries its own key as id, has at least one section, and its section ids are distinct. */
  lemma CatalogWellFormed()
    ensures forall id :: id in Catalog ==> Catalog[id].id == id && |Catalog[id].sections| >= 1
    ensures forall id :: id in Catalog ==>
      forall i, j :: 0 <= i < j < |Catalog[id].sections| ==> Catalog[id].sections[i].id != Catalog[id].sections[j].id
  {
    var ss := Catalog["1"].sections;
    assert ss[0].id == "intro" && ss[1].id == "classes-objects" && ss[2].id == "encapsulation";
    assert ss[3].id == "inheritance" && ss[4].id == "polymorphism" && ss[5].id == "abstraction";
  }

  /** The object-oriented lesson has six sections; the other two have one each. */
  lemma SectionCounts()
    ensures |Lookup("1").value.sections| == 6
    ensures |Lookup("2").value.sections| == 1 && |Lookup("3").value.sections| == 1
  {
  }

  // ---------------------------------------------------------------------------
  // The progress bar
  // ---------------------------------------------------------------------------

  /** `((currentSection + 1) / lesson.sections.length) * 100`. */
  function Progress(current: nat, count: nat): (percent: real)
    requires count > 0
  {
    ((current + 1) as real / count as real) * 100.0
  }

  /** The bar is never empty, reaches 100 exactly on the last section, and grows with the section index. */
  lemma ProgressBounds(current: nat, count: nat)
    requires current < count
    ensures 0.0 < Progress(current, count) <= 100.0
    ensures Progress(current, count) == 100.0 <==> current == count - 1
  {
    var q := (current + 1) as real / count as real;
    assert q * count as real == (current + 1) as real;
    assert 0.0 < q <= 1.0;
    if q == 1.0 {
      assert current + 1 == count;
    }
  }

  lemma ProgressIncreasing(a: nat, b: nat, count: nat)
    requires a < b < count
    ensures Progress(a, count) < Progress(b, count)
  {
    var c := count as real;
    var qa, qb := (a + 1) as real / c, (b + 1) as real / c;
    assert qa * c == (a + 1) as real && qb * c == (b + 1) as real;
    assert (qb - qa) * c == (b - a) as real;
    assert qa < qb;
  }

  /** `Math.round` for the non-negative values it is applied to here: the nearest integer, halves rounded up. */
  function Round(x: real): (r: int)
    ensures r as real <= x + 0.5 < r as real + 1.0
  {
    (x + 0.5).Floor
  }

  /** The percentage label is between 0 and 100 and shows 100 on the last section. */
  lemma ProgressLabel(current: nat, count: nat)
    requires current < count
    ensures 0 <= Round(Progress(current, count)) <= 100
    ensures current == count - 1 ==> Round(Progress(current, count)) == 100
  {
    ProgressBounds(current, count);
  }

  // ---------------------------------------------------------------------------
  // The viewer
  // ---------------------------------------------------------------------------

  /** One mounted lesson viewer; a fresh one starts at the first section with nothing marked. */
  class LessonViewer {
    const topicId: string
    const lesson: Option<Lesson>
    var current: nat
    var completed: set<nat>

    ghost predicate Valid()
      reads this
    {
      lesson == Lookup(topicId) &&
      (lesson.Some? ==> current < |lesson.value.sections| && forall i :: i in completed ==> i < |lesson.value.sections|)
    }

    constructor(topicId: string)
      ensures Valid()
      ensures this.topicId == topicId && lesson == Lookup(topicId)
      ensures current == 0 && completed == {}
    {
      this.topicId := topicId;
      lesson := Lookup(topicId);
      current := 0;
      completed := {};
      CatalogWellFormed();
    }

    /** The number of sections of the lesson on screen. */
    function Count(): (n: nat)
      reads this
      requires lesson.Some? && Valid()
      ensures n > current
    {
      |lesson.value.sections|
    }

    predicate OnLastSection()
      reads this
      requires lesson.Some? && Valid()
    {
      current == Count() - 1
    }

    /** The "Mark Complete" button is shown while the current section is not marked. */
    predicate ShowsMarkComplete()
      reads this
    {
      current !in completed
    }

    /** The percentage shown in the header. */
    function ProgressShown(): (r: int)
      reads this
      requires lesson.Some? && Valid()
      ensures 0 <= r <= 100
      ensures OnLastSection() ==> r == 100
    {
      ProgressLabel(current, Count());
      Round(Progress(current, Count()))
    }

    /** `nextSection`: moves on unless already on the last section. */
    method Next()
      requires lesson.Some? && Valid()
      modifies this
      ensures Valid() && completed == old(completed)
      ensures old(current) < Count() - 1 ==> current == old(current) + 1
      ensures old(current) == Count() - 1 ==> current == old(current)
    {
      if current < |lesson.value.sections| - 1 {
        current := current + 1;
      }
    }

    /** `prevSection`: moves back unless already on the first section. */
    method Prev()
      requires lesson.Some? && Valid()
      modifies this
      ensures Valid() && completed == old(completed)
      ensures old(current) > 0 ==> current == old(current) - 1
      ensures old(current) == 0 ==> current == 0
    {
      if current > 0 {
        current := current - 1;
      }
    }

    /** A sidebar button selects its section directly. */
    method JumpTo(index: nat)
      requires lesson.Some? && Valid() && index < Count()
      modifies this
      ensures Valid() && current == index && completed == old(completed)
    {
      current := index;
    }

    /**
      `markSectionComplete`: the current section joins the marked set; on the last section the
      topic id is also handed to the dashboard's completion handler, returned here as `done`.
    */
    method MarkComplete() returns (done: Option<string>)
      requires lesson.Some? && Valid()
      modifies this
      ensures Valid() && current == old(current)
      ensures completed == old(completed) + {current} && !ShowsMarkComplete()
      ensures done.Some? <==> OnLastSection()
      ensures done.Some? ==> done.value == topicId
    {
      completed := completed + {current};
      if current == |lesson.value.sections| - 1 {
        done := Some(topicId);
      } else {
        done := None;
      }
    }

    /** The "Complete Lesson" button, shown on the last section, hands the topic id to the dashboard. */
    method FinishLesson() returns (done: string)
      requires lesson.Some? && Valid() && OnLastSection()
      ensures done == topicId
    {
      done := topicId;
    }
  }

  /**
    A learner on the object-oriented lesson marks each of its six sections complete, moving on
    after each: only the sixth mark hands the topic id back, and then every section is marked.
  */
  method ReadObjectOrientedLesson() returns (done: Option<string>, marked: set<nat>)
    ensures done == Some("1") && marked == {0, 1, 2, 3, 4, 5}
  {
    var viewer := new LessonViewer("1");
    assert |viewer.lesson.value.sections| == 6;
    done := viewer.MarkComplete();
    viewer.Next();
    assert viewer.current == 1 && viewer.completed == {0};
    done := viewer.MarkComplete();
    viewer.Next();
    assert viewer.current == 2 && viewer.completed == {0, 1};
    done := viewer.MarkComplete();
    viewer.Next();
    assert viewer.current == 3 && viewer.completed == {0, 1, 2};
    done := viewer.MarkComplete();
    viewer.Next();
    assert viewer.current == 4 && viewer.completed == {0, 1, 2, 3};
    done := viewer.MarkComplete();
    viewer.Next();
    assert viewer.current == 5 && viewer.completed == {0, 1, 2, 3, 4};
    done := viewer.MarkComplete();
    marked := viewer.completed;
  }
}
