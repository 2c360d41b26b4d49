/** The referential actions the entities declare, as functions over the tables:
    which rows a delete takes with it (ON DELETE CASCADE) and how surviving rows are
    rewritten (ON DELETE SET NULL on element.project, CASCADE on `element_tags` rows). */
module Cascade {
  import opened Common
  import opened Entities
  import TagLinks

  function ProjectsOfUser(projects: map<Id, Project>, user: Id): (r: set<Id>)
    ensures forall p :: p in r <==> p in projects && projects[p].user == Some(user)
  {
    set p | p in projects && projects[p].user == Some(user)
  }

  function TagsOfUser(tags: map<Id, Tag>, user: Id): (r: set<Id>)
    ensures forall t :: t in r <==> t in tags && tags[t].user == user
  {
    set t | t in tags && tags[t].user == user
  }

  function ElementsOfUser(elements: map<Id, Element>, user: Id): (r: set<Id>)
    ensures forall e :: e in r <==> e in elements && elements[e].user == user
  {
    set e | e in elements && elements[e].user == user
  }

  function ListsOf(lists: map<Id, TodoList>, gone: set<Id>): (r: set<Id>)
    ensures forall l :: l in r <==> l in lists && lists[l].element in gone
  {
    set l | l in lists && lists[l].element in gone
  }

  function NotesOf(notes: map<Id, Note>, gone: set<Id>): (r: set<Id>)
    ensures forall n :: n in r <==> n in notes && notes[n].element in gone
  {
    set n | n in notes && notes[n].element in gone
  }

  function TasksOf(tasks: map<Id, Task>, gone: set<Id>): (r: set<Id>)
    ensures forall t :: t in r <==> t in tasks && tasks[t].list in gone
  {
    set t | t in tasks && tasks[t].list in gone
  }

  function RemindersOf(reminders: map<Id, Reminder>, gone: set<Id>): (r: set<Id>)
    ensures forall x :: x in r <==> x in reminders && reminders[x].task in gone
  {
    set x | x in reminders && reminders[x].task in gone
  }

  /** ON DELETE SET NULL: elements that pointed at a deleted project keep every other
      field and lose their project. */
  function NullProjects(elements: map<Id, Element>, gone: set<Id>): (r: map<Id, Element>)
    ensures r.Keys == elements.Keys
    ensures forall id :: id in r ==> r[id].(project := elements[id].project) == elements[id]
    ensures forall id :: id in r && elements[id].project.Some? && elements[id].project.value in gone ==>
      r[id].project.None?
    ensures forall id :: id in r && !(elements[id].project.Some? && elements[id].project.value in gone) ==>
      r[id] == elements[id]
  {
    map id | id in elements ::
      var e := elements[id];
      if e.project.Some? && e.project.value in gone then e.(project := None) else e
  }

  /** ON DELETE CASCADE on `element_tags.tag_id`: every link to a deleted tag disappears and
      the remaining links keep their order. */
  function DropTagLinks(elements: map<Id, Element>, gone: set<Id>): (r: map<Id, Element>)
    ensures r.Keys == elements.Keys
    ensures forall id :: id in r ==> r[id].(tags := elements[id].tags) == elements[id]
    ensures forall id :: id in r ==> r[id].tags == TagLinks.Without(elements[id].tags, gone)
    ensures forall id, t :: id in r && t in r[id].tags ==> t in elements[id].tags && t !in gone
  {
    map id | id in elements :: elements[id].(tags := TagLinks.Without(elements[id].tags, gone))
  }

  /** Nulling references to no project changes no element. */
  lemma NullProjectsNothing(elements: map<Id, Element>)
    ensures NullProjects(elements, {}) == elements
  {
    var r := NullProjects(elements, {});
    forall id | id in r ensures r[id] == elements[id] {
    }
  }

  /** Dropping the links to no tag changes no element. */
  lemma DropTagLinksNothing(elements: map<Id, Element>)
    ensures DropTagLinks(elements, {}) == elements
  {
    var r := DropTagLinks(elements, {});
    forall id | id in r ensures r[id] == elements[id] {
      TagLinks.WithoutAbsent(elements[id].tags, {});
    }
  }

  /** Removing no key from a table leaves it as it was. */
  lemma RemoveNothing<T>(m: map<Id, T>)
    ensures m - {} == m
  {
    assert (m - {}).Keys == m.Keys;
  }
}
