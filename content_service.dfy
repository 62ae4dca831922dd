/** The content library (services/contentService.ts): the fixed course and pathway tables,
    lookup by id, and the mood-based recommendation. Lesson bodies, images and
    descriptions are presentation and are not modelled. */
module ContentService {
  import opened Wrappers
  import opened Types

  datatype Course = Course(id: string, title: string, category: string, totalDurationMinutes: nat)

  datatype Pathway = Pathway(id: string, title: string, problemTags: seq<string>, courses: seq<string>)

  const Courses: seq<Course> := [
    Course("anxiety-101", "Anxiety Basics", "Anxiety", 15),
    Course("sleep-hygiene", "Sleep Hygiene 101", "Sleep", 20),
    Course("cbt-starter", "Intro to CBT", "Therapy", 30),
    Course("creative-mind", "Creative Flow", "Growth", 45)
  ]

  const Pathways: seq<Pathway> := [
    Pathway("path-calm", "7 Days to Calm", ["Anxious", "Stress", "Overwhelmed"], ["anxiety-101", "cbt-starter"]),
    Pathway("path-sleep", "Better Sleep Journey", ["Insomnia", "Tired", "Sleep"], ["sleep-hygiene"])
  ]

  /** `table.find(x => x.id === id)` for a table whose entries have ids `key`. */
  function FindById<T>(table: seq<T>, key: T -> string, id: string): (r: Option<T>)
    ensures r.None? <==> forall i :: 0 <= i < |table| ==> key(table[i]) != id
    ensures r.Some? ==> exists i :: 0 <= i < |table| && table[i] == r.value && key(r.value) == id &&
                                    forall j :: 0 <= j < i ==> key(table[j]) != id
  {
    if table == [] then None
    else if key(table[0]) == id then Some(table[0])
    else
      var r := FindById(table[1..], key, id);
      assert r.Some? ==> exists i :: 1 <= i < |table| && table[i] == r.value && key(r.value) == id &&
                                     forall j :: 0 <= j < i ==> key(table[j]) != id by {
        if r.Some? {
          var k :| 0 <= k < |table[1..]| && table[1..][k] == r.value && key(r.value) == id &&
                   forall j :: 0 <= j < k ==> key(table[1..][j]) != id;
          assert table[k + 1] == r.value;
          assert forall j :: 1 <= j < k + 1 ==> table[j] == table[1..][j - 1];
        }
      }
      r
  }

  function CourseId(c: Course): string { c.id }

  function PathwayId(p: Pathway): string { p.id }

  /** `getCourseById`. */
  function CourseById(id: string): Option<Course>
  {
    FindById(Courses, CourseId, id)
  }

  /** `getPathwayById`. */
  function PathwayById(id: string): Option<Pathway>
  {
    FindById(Pathways, PathwayId, id)
  }

  /** The table ids are distinct, so every course and pathway is found by its own id. */
  lemma LookupTables()
    ensures forall i :: 0 <= i < |Courses| ==> CourseById(Courses[i].id) == Some(Courses[i])
    ensures forall i :: 0 <= i < |Pathways| ==> PathwayById(Pathways[i].id) == Some(Pathways[i])
  {
    assert forall i, j :: 0 <= i < j < |Courses| ==> Courses[i].id != Courses[j].id;
    assert Pathways[0].id != Pathways[1].id;
  }

  /** Mood `m` occurs among `entries`. */
  predicate HasMood(entries: seq<MoodEntry>, m: MoodType)
  {
    exists i :: 0 <= i < |entries| && entries[i].mood == m
  }

  /** The tags read off the last five moods: 'Anxiety' for an Anxious or Angry mood, then
      'Therapy' for a Sad one. */
  function RecommendTags(history: seq<MoodEntry>): (r: seq<string>)
    ensures "Anxiety" in r <==> HasMood(LastN(history, 5), Anxious) || HasMood(LastN(history, 5), Angry)
    ensures "Therapy" in r <==> HasMood(LastN(history, 5), Sad)
    ensures forall t :: t in r ==> t == "Anxiety" || t == "Therapy"
  {
    var recent := LastN(history, 5);
    (if HasMood(recent, Anxious) || HasMood(recent, Angry) then ["Anxiety"] else []) +
    (if HasMood(recent, Sad) then ["Therapy"] else [])
  }

  /** `COURSES.filter(c => tags.includes(c.category))`. */
  function CoursesFor(courses: seq<Course>, tags: seq<string>): (r: seq<Course>)
    ensures |r| <= |courses|
  {
    if courses == [] then []
    else (if courses[0].category in tags then [courses[0]] else []) + CoursesFor(courses[1..], tags)
  }

  /** A pathway matches when one of its problem tags is a tag, or is 'Anxious' while 'Anxiety' is. */
  predicate Matches(p: Pathway, tags: seq<string>)
  {
    exists k :: 0 <= k < |p.problemTags| &&
      (p.problemTags[k] in tags || (p.problemTags[k] == "Anxious" && "Anxiety" in tags))
  }

  function PathwaysFor(pathways: seq<Pathway>, tags: seq<string>): (r: seq<Pathway>)
    ensures |r| <= |pathways|
  {
    if pathways == [] then []
    else (if Matches(pathways[0], tags) then [pathways[0]] else []) + PathwaysFor(pathways[1..], tags)
  }

  /** `recommendContent`: the matching courses and pathways, or the first course and the
      first pathway when no course matches. */
  datatype Recommendation = Recommendation(courses: seq<Course>, pathways: seq<Pathway>)

  function Recommend(history: seq<MoodEntry>): Recommendation
  {
    var tags := RecommendTags(history);
    var courses := CoursesFor(Courses, tags);
    if |courses| == 0 then Recommendation([Courses[0]], [Pathways[0]])
    else Recommendation(courses, PathwaysFor(Pathways, tags))
  }

  /** The course filter keeps exactly the courses whose category is a tag, in library order
      (it works piece by piece). */
  lemma {:induction false} CoursesForSpec(courses: seq<Course>, more: seq<Course>, tags: seq<string>)
    ensures forall c :: c in CoursesFor(courses, tags) <==> c in courses && c.category in tags
    ensures CoursesFor(courses + more, tags) == CoursesFor(courses, tags) + CoursesFor(more, tags)
  {
    if courses != [] {
      CoursesForSpec(courses[1..], more, tags);
      assert (courses + more)[1..] == courses[1..] + more;
      assert courses == [courses[0]] + courses[1..];
    } else {
      assert courses + more == more;
    }
  }

  /** Only the last five entries matter. */
  lemma RecommendUsesLastFive(history: seq<MoodEntry>, older: seq<MoodEntry>)
    requires |history| >= 5
    ensures Recommend(older + history) == Recommend(history)
  {
    assert LastN(older + history, 5) == LastN(history, 5);
  }

  /** The outcome for each mood pattern of the last five entries: with no Anxious, Angry or
      Sad mood, the defaults; with only Sad, the CBT course and no pathway; with Anxious or
      Angry, the anxiety course (and the CBT course too when Sad occurs) and the calm pathway. */
  lemma RecommendOutcomes(history: seq<MoodEntry>)
    ensures var recent := LastN(history, 5);
            var anxious := HasMood(recent, Anxious) || HasMood(recent, Angry);
            var sad := HasMood(recent, Sad);
            var r := Recommend(history);
            && (!anxious && !sad ==> r == Recommendation([Courses[0]], [Pathways[0]]))
            && (!anxious && sad ==> r == Recommendation([Courses[2]], []))
            && (anxious && !sad ==> r == Recommendation([Courses[0]], [Pathways[0]]))
            && (anxious && sad ==> r == Recommendation([Courses[0], Courses[2]], [Pathways[0]]))
  {
    var tags := RecommendTags(history);
    CoursesForTable(tags);
    PathwaysForTable(tags);
  }

  /** On tags drawn from 'Anxiety' and 'Therapy', the course filter picks the anxiety course
      and the CBT course as their tags are present. */
  lemma CoursesForTable(tags: seq<string>)
    requires forall t :: t in tags ==> t == "Anxiety" || t == "Therapy"
    ensures CoursesFor(Courses, tags) ==
            (if "Anxiety" in tags then [Courses[0]] else []) + (if "Therapy" in tags then [Courses[2]] else [])
  {
    assert "Sleep" !in tags && "Growth" !in tags;
    var c0, c1, c2, c3 := Courses[0], Courses[1], Courses[2], Courses[3];
    assert Courses == [c0] + ([c1] + ([c2] + [c3]));
    CoursesForSpec([c0], [c1] + ([c2] + [c3]), tags);
    CoursesForSpec([c1], [c2] + [c3], tags);
    CoursesForSpec([c2], [c3], tags);
    assert CoursesFor([c1], tags) == [] && CoursesFor([c3], tags) == [];
    assert CoursesFor([c0], tags) == if "Anxiety" in tags then [c0] else [];
    assert CoursesFor([c2], tags) == if "Therapy" in tags then [c2] else [];
  }

  /** On tags drawn from 'Anxiety' and 'Therapy', only the calm pathway can match, and it
      matches exactly when 'Anxiety' is present. */
  lemma PathwaysForTable(tags: seq<string>)
    requires forall t :: t in tags ==> t == "Anxiety" || t == "Therapy"
    ensures PathwaysFor(Pathways, tags) == if "Anxiety" in tags then [Pathways[0]] else []
  {
    var p0, p1 := Pathways[0], Pathways[1];
    assert Matches(p0, tags) <==> "Anxiety" in tags by {
      if "Anxiety" in tags {
        assert p0.problemTags[0] == "Anxious";
      }
      assert forall k :: 0 <= k < |p0.problemTags| ==> p0.problemTags[k] !in tags;
    }
    assert !Matches(p1, tags) by {
      assert forall k :: 0 <= k < |p1.problemTags| ==> p1.problemTags[k] !in tags && p1.problemTags[k] != "Anxious";
    }
    assert Pathways[1..] == [p1] && [p1][1..] == [];
  }
}
