/** The learner's course page: progress over the course tree, the state
    updates of the section accordion, the chapter toggles and the sub-chapter
    checkboxes, the choice of the course to load, and the test that forces a
    banned learner out. */
module Home {
  import opened Base
  import opened Text
  import Courses
  import Server

  // ---------------------------------------------------------------------
  // The course as the page receives it: any of its arrays may be missing.

  datatype ChapterDoc = ChapterDoc(chapterTitle: string, subChapters: Option<seq<Courses.SubChapter>>)

  datatype SectionDoc = SectionDoc(sectionTitle: string, chapters: Option<seq<ChapterDoc>>)

  datatype CourseDoc = CourseDoc(title: string, sections: Option<seq<SectionDoc>>)

  /** `chapter.subChapters ? chapter.subChapters.length : 0` */
  function ChapterCount(ch: ChapterDoc): nat {
    if ch.subChapters.Some? then |ch.subChapters.value| else 0
  }

  function ChaptersTotal(chs: seq<ChapterDoc>): nat {
    if chs == [] then 0 else ChaptersTotal(chs[..|chs| - 1]) + ChapterCount(chs[|chs| - 1])
  }

  function SectionTotal(s: SectionDoc): nat {
    if s.chapters.Some? then ChaptersTotal(s.chapters.value) else 0
  }

  /** Every section contributes its own sub-chapters to the total. */
  function SectionsTotal(ss: seq<SectionDoc>): (n: nat)
    ensures forall i :: 0 <= i < |ss| ==> SectionTotal(ss[i]) <= n
  {
    if ss == [] then 0 else SectionsTotal(ss[..|ss| - 1]) + SectionTotal(ss[|ss| - 1])
  }

  /** The number of sub-chapters of the course; a missing array counts 0. */
  function TotalSubChapters(course: Option<CourseDoc>): (n: nat)
    ensures course.None? ==> n == 0
    ensures course.Some? && course.value.sections.Some? ==>
      forall i :: 0 <= i < |course.value.sections.value| ==> SectionTotal(course.value.sections.value[i]) <= n
  {
    match course
    case None => 0
    case Some(c) => if c.sections.Some? then SectionsTotal(c.sections.value) else 0
  }

  /** The sum is taken section by section: it adds up over a split of the sections. */
  lemma {:induction false} SectionsTotalAppend(a: seq<SectionDoc>, b: seq<SectionDoc>)
    ensures SectionsTotal(a + b) == SectionsTotal(a) + SectionsTotal(b)
  {
    if b != [] {
      var b' := b[..|b| - 1];
      assert (a + b)[..|a + b| - 1] == a + b';
      assert (a + b)[|a + b| - 1] == b[|b| - 1];
      SectionsTotalAppend(a, b');
    }
    else {
      assert a + b == a;
    }
  }

  // ---------------------------------------------------------------------
  // The checkbox keys `${sectionIndex}-${chapterIndex}-${subIndex}`

  function Join(a: string, b: string): string {
    a + "-" + b
  }

  function SubChapterKey(s: nat, c: nat, i: nat): string {
    Join(NatToString(s), Join(NatToString(c), NatToString(i)))
  }

  /** A dash-free head is recovered from a dash-joined string. */
  lemma {:induction false} JoinInjective(a: string, b: string, a': string, b': string)
    requires forall k :: 0 <= k < |a| ==> a[k] != '-'
    requires forall k :: 0 <= k < |a'| ==> a'[k] != '-'
    requires Join(a, b) == Join(a', b')
    ensures a == a' && b == b'
  {
    var j := Join(a, b);
    if |a| != |a'| {
      JoinShape(a, b);
      JoinShape(a', b');
      assert false;
    }
    assert a == j[..|a|] == a';
    assert b == j[|a| + 1..] == b';
  }

  lemma JoinShape(a: string, b: string)
    ensures |Join(a, b)| == |a| + 1 + |b|
    ensures forall k :: 0 <= k < |a| ==> Join(a, b)[k] == a[k]
    ensures Join(a, b)[|a|] == '-'
  {
  }

  lemma DigitsHaveNoDash(n: nat)
    ensures forall k :: 0 <= k < |NatToString(n)| ==> NatToString(n)[k] != '-'
  {
  }

  /** Distinct sub-chapter positions have distinct checkbox keys. */
  lemma SubChapterKeyInjective(s: nat, c: nat, i: nat, s': nat, c': nat, i': nat)
    requires SubChapterKey(s, c, i) == SubChapterKey(s', c', i')
    ensures s == s' && c == c' && i == i'
  {
    DigitsHaveNoDash(s);
    DigitsHaveNoDash(s');
    DigitsHaveNoDash(c);
    DigitsHaveNoDash(c');
    JoinInjective(NatToString(s), Join(NatToString(c), NatToString(i)),
                  NatToString(s'), Join(NatToString(c'), NatToString(i')));
    JoinInjective(NatToString(c), NatToString(i), NatToString(c'), NatToString(i'));
    NatToStringInjective(s, s');
    NatToStringInjective(c, c');
    NatToStringInjective(i, i');
  }

  /** Every checkbox key the page can render for the course, in page order
      (a box is on screen only while its section and chapter are expanded). */
  function ChapterKeys(s: nat, c: nat, ch: ChapterDoc): (r: seq<string>)
    ensures |r| == ChapterCount(ch)
  {
    seq(ChapterCount(ch), i requires 0 <= i < ChapterCount(ch) => SubChapterKey(s, c, i))
  }

  function ChaptersKeys(s: nat, chs: seq<ChapterDoc>): (r: seq<string>)
    ensures |r| == ChaptersTotal(chs)
  {
    if chs == [] then []
    else ChaptersKeys(s, chs[..|chs| - 1]) + ChapterKeys(s, |chs| - 1, chs[|chs| - 1])
  }

  function SectionsKeys(ss: seq<SectionDoc>): (r: seq<string>)
    ensures |r| == SectionsTotal(ss)
  {
    if ss == [] then []
    else
      var last := ss[|ss| - 1];
      SectionsKeys(ss[..|ss| - 1]) + (if last.chapters.Some? then ChaptersKeys(|ss| - 1, last.chapters.value) else [])
  }

  function RenderedKeys(course: Option<CourseDoc>): (r: seq<string>)
    ensures |r| == TotalSubChapters(course)
  {
    match course
    case None => []
    case Some(c) => if c.sections.Some? then SectionsKeys(c.sections.value) else []
  }

  // ---------------------------------------------------------------------
  // Progress

  /** `completedSubChapters[key] || false` */
  predicate Checked(m: map<string, bool>, key: string) {
    key in m && m[key]
  }

  /** `Object.values(completedSubChapters).filter(Boolean).length` */
  function CompletedCount(m: map<string, bool>): (n: nat)
    ensures n <= |m|
  {
    SubsetCardinality((set k | k in m && m[k]), m.Keys);
    |set k | k in m && m[k]|
  }

  /** `calculateProgress`: no course gives 0 of 0; otherwise the checked
      entries of the map and the sub-chapters of the course. */
  method CalculateProgress(course: Option<CourseDoc>, completedMap: map<string, bool>)
    returns (completed: nat, total: nat)
    ensures course.None? ==> completed == 0 && total == 0
    ensures course.Some? ==> completed == CompletedCount(completedMap) && total == TotalSubChapters(course)
  {
    if course.None? {
      return 0, 0;
    }
    total := 0;
    if course.value.sections.Some? {
      var ss := course.value.sections.value;
      for i := 0 to |ss|
        invariant total == SectionsTotal(ss[..i])
      {
        assert ss[..i + 1][..i] == ss[..i];
        if ss[i].chapters.Some? {
          var chs := ss[i].chapters.value;
          for j := 0 to |chs|
            invariant total == SectionsTotal(ss[..i]) + ChaptersTotal(chs[..j])
          {
            assert chs[..j + 1][..j] == chs[..j];
            total := total + (if chs[j].subChapters.Some? then |chs[j].subChapters.value| else 0);
          }
          assert chs[..|chs|] == chs;
        }
      }
      assert ss[..|ss|] == ss;
    }
    completed := CompletedCount(completedMap);
  }

  /** `total > 0 ? Math.round((completed / total) * 100) : 0` in exact
      arithmetic: the integer nearest to 100 * completed / total, halves
      rounded up. */
  function ProgressPercentage(completed: nat, total: nat): (p: nat)
    ensures total == 0 ==> p == 0
    ensures total > 0 ==> (2 * p) * total <= 200 * completed + total < (2 * p) * total + 2 * total
  {
    if total > 0 then (200 * completed + total) / (2 * total) else 0
  }

  /** The bar never passes 100% while at most all sub-chapters are checked,
      shows 100% when all are, and 0% when none is. */
  lemma {:induction false} PercentageBounds(completed: nat, total: nat)
    requires total > 0
    ensures completed <= total ==> ProgressPercentage(completed, total) <= 100
    ensures completed == total ==> ProgressPercentage(completed, total) == 100
    ensures completed == 0 ==> ProgressPercentage(completed, total) == 0
  {
    var p := ProgressPercentage(completed, total);
    if completed <= total {
      MulCancel(total, 2 * p, 201);
    }
    if completed == total {
      MulCancelStrict(total, 199, 2 * p);
    }
    if completed == 0 {
      MulCancel(total, 2 * p, 1);
    }
  }

  lemma MulCancel(t: int, x: int, y: int)
    requires t > 0 && x * t <= y * t
    ensures x <= y
  {
  }

  lemma MulCancelStrict(t: int, x: int, y: int)
    requires t > 0 && x * t < y * t
    ensures x < y
  {
  }

  lemma {:induction false} DistinctElementsBound(q: seq<string>)
    ensures |set x | x in q| <= |q|
  {
    if q != [] {
      var init := q[..|q| - 1];
      DistinctElementsBound(init);
      assert (set x | x in q) == (set x | x in init) + {q[|q| - 1]};
    }
  }

  /** When every checked key belongs to a rendered checkbox, the completed
      count is at most the total and the percentage at most 100. */
  lemma CompletedWithinCourse(course: Option<CourseDoc>, m: map<string, bool>)
    requires forall k :: k in m && m[k] ==> k in RenderedKeys(course)
    ensures CompletedCount(m) <= TotalSubChapters(course)
    ensures ProgressPercentage(CompletedCount(m), TotalSubChapters(course)) <= 100
  {
    var keys := RenderedKeys(course);
    assert (set k | k in m && m[k]) <= (set x | x in keys);
    DistinctElementsBound(keys);
    SubsetCardinality(set k | k in m && m[k], set x | x in keys);
    if TotalSubChapters(course) > 0 {
      PercentageBounds(CompletedCount(m), TotalSubChapters(course));
    }
  }

  lemma SubsetCardinality(a: set<string>, b: set<string>)
    requires a <= b
    ensures |a| <= |b|
  {
    assert b == a + (b - a);
  }

  // ---------------------------------------------------------------------
  // The sub-chapter checkbox

  /** `{ ...prev, [key]: !prev[key] }` */
  function ToggleCompleted(m: map<string, bool>, key: string): (r: map<string, bool>)
    ensures Checked(r, key) == !Checked(m, key)
    ensures key in r
    ensures forall k :: k != key ==> (k in r <==> k in m)
    ensures forall k :: k != key && k in m ==> r[k] == m[k]
  {
    m[key := !Checked(m, key)]
  }

  /** Checking a box twice restores what the page shows for every box (an
      absent entry comes back as `false`). */
  lemma ToggleTwice(m: map<string, bool>, key: string)
    ensures forall k :: Checked(ToggleCompleted(ToggleCompleted(m, key), key), k) == Checked(m, k)
  {
  }

  /** Checking a box moves the completed count by one, up or down. */
  lemma ToggleCount(m: map<string, bool>, key: string)
    ensures CompletedCount(ToggleCompleted(m, key)) ==
      if Checked(m, key) then CompletedCount(m) - 1 else CompletedCount(m) + 1
  {
    var r := ToggleCompleted(m, key);
    var before := set k | k in m && m[k];
    var after := set k | k in r && r[k];
    assert CompletedCount(m) == |before| && CompletedCount(r) == |after|;
    if Checked(m, key) {
      assert after == before - {key};
    } else {
      assert after == before + {key};
    }
  }

  /** Toggling sub-chapter (s, c, i) leaves every other sub-chapter's box as it was. */
  lemma ToggleSubChapterIsolated(m: map<string, bool>, s: nat, c: nat, i: nat, s': nat, c': nat, i': nat)
    requires (s, c, i) != (s', c', i')
    ensures Checked(ToggleCompleted(m, SubChapterKey(s, c, i)), SubChapterKey(s', c', i'))
         == Checked(m, SubChapterKey(s', c', i'))
  {
    if SubChapterKey(s, c, i) == SubChapterKey(s', c', i') {
      SubChapterKeyInjective(s, c, i, s', c', i');
    }
  }

  // ---------------------------------------------------------------------
  // The section accordion and the chapter toggles

  /** `expandedSectionIndex === sectionIndex ? null : sectionIndex` */
  function ToggleSection(expanded: Option<nat>, clicked: nat): (r: Option<nat>)
    ensures r == None <==> expanded == Some(clicked)
    ensures r.Some? ==> r.value == clicked
  {
    if expanded == Some(clicked) then None else Some(clicked)
  }

  /** `expandedChapters[s] && expandedChapters[s][c]` */
  predicate ChapterExpanded(m: map<nat, map<nat, bool>>, s: nat, c: nat) {
    s in m && c in m[s] && m[s][c]
  }

  /** `{ ...prev, [s]: { ...prev[s], [c]: !prev[s]?.[c] } }` */
  function ToggleChapter(m: map<nat, map<nat, bool>>, s: nat, c: nat): (r: map<nat, map<nat, bool>>)
    ensures ChapterExpanded(r, s, c) == !ChapterExpanded(m, s, c)
    ensures forall s': nat, c': nat :: (s', c') != (s, c) ==> ChapterExpanded(r, s', c') == ChapterExpanded(m, s', c')
    ensures forall s' :: s' != s ==> (s' in r <==> s' in m)
    ensures forall s' :: s' != s && s' in m ==> r[s'] == m[s']
    ensures s in r && forall c' :: c' != c ==> (c' in r[s] <==> s in m && c' in m[s])
    ensures forall c' :: c' != c && s in m && c' in m[s] ==> r[s][c'] == m[s][c']
  {
    var inner := if s in m then m[s] else map[];
    m[s := inner[c := !ChapterExpanded(m, s, c)]]
  }

  // ---------------------------------------------------------------------
  // Which course to load

  /** `res.data.selectedCourse` as received: null, a populated course
      document (with its `_id`), or a bare id string. */
  datatype SelectedCourse = NoCourse | PopulatedCourse(docId: string) | CourseIdString(id: string)

  /** The course id `fetchProfileAndCourse` requests, or None when it requests none. */
  function CourseToLoad(queryCourseId: Option<string>, selected: SelectedCourse): (r: Option<string>)
    ensures queryCourseId.Some? ==> r == (if queryCourseId.value != "" then queryCourseId else None)
    ensures queryCourseId.None? && selected.PopulatedCourse? && selected.docId != "" ==> r == Some(selected.docId)
    ensures queryCourseId.None? && selected.CourseIdString? ==>
      r == (if selected.id != "" then Some(selected.id) else None)
    ensures queryCourseId.None? && selected.NoCourse? ==> r == None
    ensures r.Some? ==> r.value != ""
  {
    var courseId: Option<string> :=
      if queryCourseId.Some? then queryCourseId
      else
        match selected
        case NoCourse => None
        // `selectedCourse._id || selectedCourse`: an object without an id is stringified
        case PopulatedCourse(docId) => Some(if docId != "" then docId else "[object Object]")
        case CourseIdString(id) => if id != "" then Some(id) else None;
    if courseId.Some? && courseId.value != "" then courseId else None
  }

  // ---------------------------------------------------------------------
  // Forced logout

  /** An error's `response`, when there is one: its status and `data.message`. */
  datatype ErrorResponse = ErrorResponse(status: int, message: Option<string>)

  /** The test in `fetchProfileAndCourse`'s error handler. */
  predicate ForcesLogout(response: Option<ErrorResponse>)
    ensures ForcesLogout(response) ==>
      response.Some? && response.value.message.Some? && |response.value.message.value| >= |"banned"|
  {
    && response.Some?
    && response.value.status == 401
    && response.value.message.Some? && response.value.message.value != ""
    && Contains(Lower(response.value.message.value), "banned")
  }

  /** Any 401 whose message mentions a ban, in any letter case, forces the logout. */
  lemma BanMentionForcesLogout(message: string, i: nat)
    requires i + 6 <= |message| && Lower(message)[i..i + 6] == "banned"
    ensures ForcesLogout(Some(ErrorResponse(401, Some(message))))
  {
    ContainsAt(Lower(message), "banned", i);
  }

  /** The ban reply of the profile endpoint forces the logout. */
  lemma BannedProfileReplyForcesLogout(r: Server.Reply<Server.ProfileView>)
    requires r == Server.Fail(401, "This account has been banned.")
    ensures ForcesLogout(Some(ErrorResponse(r.status, Some(r.message))))
  {
    assert Lower(r.message)[22..28] == "banned";
    BanMentionForcesLogout(r.message, 22);
  }

  /** Conversely, only a 401 whose message mentions a ban, in some letter
      case, forces the logout: any other error leaves the learner logged in. */
  lemma LogoutNeedsBanMention(status: int, message: Option<string>)
    requires ForcesLogout(Some(ErrorResponse(status, message)))
    ensures status == 401 && message.Some?
    ensures exists i: nat :: OccursAt(Lower(message.value), "banned", i)
  {
    ContainsOccurs(Lower(message.value), "banned");
  }
}
