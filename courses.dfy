/** The course documents of the catalogue (the Course schema of the API
    server): a strict three-level tree of sections, chapters and sub-chapters
    whose child order is the display order. */
module Courses {
  import opened Base

  /** A document identifier (a MongoDB ObjectId). */
  type Id = nat

  datatype SubChapter = SubChapter(subTitle: string, subUrl: string)

  datatype Chapter = Chapter(chapterTitle: string, chapterContent: Option<string>, subChapters: seq<SubChapter>)

  datatype Section = Section(sectionTitle: string, description: Option<string>, chapters: seq<Chapter>)

  datatype Course = Course(
    id: Id,
    teacherId: Option<string>,
    name: Option<string>,
    title: string,
    description: string,
    image: Option<string>,
    category: string,
    sections: seq<Section>,
    createdAt: int,
    updatedAt: int,
    enrollments: int)

  /** The JSON body of a create or update request: each top-level field may be absent. */
  datatype CourseFields = CourseFields(
    teacherId: Option<string>,
    name: Option<string>,
    title: Option<string>,
    description: Option<string>,
    image: Option<string>,
    category: Option<string>,
    sections: Option<seq<Section>>,
    enrollments: Option<int>)

  /** What Mongoose's `required: true` accepts on a String path: present and not empty. */
  predicate Supplied(v: Option<string>) {
    v.Some? && v.value != ""
  }

  /** The `required` paths of the sub-document schemas, at every level of the tree. */
  predicate SectionsValid(ss: seq<Section>) {
    forall i :: 0 <= i < |ss| ==> ss[i].sectionTitle != "" && ChaptersValid(ss[i].chapters)
  }

  predicate ChaptersValid(cs: seq<Chapter>) {
    forall j :: 0 <= j < |cs| ==> cs[j].chapterTitle != "" && SubChaptersValid(cs[j].subChapters)
  }

  predicate SubChaptersValid(scs: seq<SubChapter>) {
    forall k :: 0 <= k < |scs| ==> scs[k].subTitle != "" && scs[k].subUrl != ""
  }

  /** The document `new Course(body).save()` stores under `id` at time `now`,
      or None when the schema's validators reject the body. */
  function NewCourse(id: Id, data: CourseFields, now: int): (r: Option<Course>)
    ensures r.Some? <==>
      Supplied(data.title) && Supplied(data.description) && Supplied(data.category)
      && SectionsValid(data.sections.GetOr([]))
    ensures r.Some? ==>
      && r.value.id == id
      && r.value.title == data.title.value
      && r.value.description == data.description.value
      && r.value.category == data.category.value
      && r.value.teacherId == data.teacherId
      && r.value.name == data.name
      && r.value.image == data.image
      && r.value.sections == data.sections.GetOr([])
      && r.value.createdAt == now && r.value.updatedAt == now
      && r.value.enrollments == data.enrollments.GetOr(0)
  {
    if Supplied(data.title) && Supplied(data.description) && Supplied(data.category)
       && SectionsValid(data.sections.GetOr([]))
    then
      Some(Course(id, data.teacherId, data.name, data.title.value, data.description.value,
                  data.image, data.category.value, data.sections.GetOr([]), now, now,
                  data.enrollments.GetOr(0)))
    else
      None
  }

  /** `findByIdAndUpdate(id, body)` with `body.updatedAt = now`: every supplied
      top-level field replaces the stored one wholesale (the sections tree
      included), the rest is kept, and no validator runs. */
  function ApplyUpdate(c: Course, data: CourseFields, now: int): (r: Course)
    ensures r.id == c.id && r.createdAt == c.createdAt && r.updatedAt == now
    ensures r.sections == (if data.sections.Some? then data.sections.value else c.sections)
    ensures r.title == (if data.title.Some? then data.title.value else c.title)
    ensures r.description == (if data.description.Some? then data.description.value else c.description)
    ensures r.category == (if data.category.Some? then data.category.value else c.category)
    ensures r.teacherId == (if data.teacherId.Some? then data.teacherId else c.teacherId)
    ensures r.name == (if data.name.Some? then data.name else c.name)
    ensures r.image == (if data.image.Some? then data.image else c.image)
    ensures r.enrollments == (if data.enrollments.Some? then data.enrollments.value else c.enrollments)
  {
    c.(teacherId := if data.teacherId.Some? then data.teacherId else c.teacherId,
       name := if data.name.Some? then data.name else c.name,
       title := data.title.GetOr(c.title),
       description := data.description.GetOr(c.description),
       image := if data.image.Some? then data.image else c.image,
       category := data.category.GetOr(c.category),
       sections := data.sections.GetOr(c.sections),
       enrollments := data.enrollments.GetOr(c.enrollments),
       updatedAt := now)
  }

  /** A replacing update keeps no section of the old tree: a section left out
      of the payload is gone afterwards, not merged back. */
  lemma UpdateReplacesSections(c: Course, data: CourseFields, now: int, s: Section)
    requires data.sections.Some? && s !in data.sections.value
    ensures s !in ApplyUpdate(c, data, now).sections
  {
  }

  /** Sending the same update body again at the same time changes nothing further. */
  lemma UpdateIdempotent(c: Course, data: CourseFields, now: int)
    ensures ApplyUpdate(ApplyUpdate(c, data, now), data, now) == ApplyUpdate(c, data, now)
  {
  }

  /** No validator runs on update: a supplied empty title is stored, so a
      course that passed creation can lose its required title. */
  lemma UpdateSkipsValidation(c: Course, data: CourseFields, now: int)
    requires data.title == Some("")
    ensures !Supplied(Some(ApplyUpdate(c, data, now).title))
  {
  }

  /** `findById(id)`: the position of the first course with that id, or None. */
  function FindCourse(cs: seq<Course>, id: Id): (r: Option<nat>)
    ensures r.Some? ==> r.value < |cs| && cs[r.value].id == id
    ensures r.Some? ==> forall k :: 0 <= k < r.value ==> cs[k].id != id
    ensures r.None? <==> forall k :: 0 <= k < |cs| ==> cs[k].id != id
  {
    if cs == [] then None
    else if cs[0].id == id then Some(0)
    else
      match FindCourse(cs[1..], id)
      case None => None
      case Some(k) => Some(k + 1)
  }
}
