/** The constraints the schema declares, one predicate per table: every row is stored under
    its primary key, every foreign key names an existing row, the two unique columns
    (users.email, reminders.task_id) hold no duplicates, and the element_tags join table,
    keyed by (element_id, tag_id), links an element to a tag at most once. A table is
    checked against the key sets of the tables it points at.

    The lemmas show that the referential actions of the cascade module leave every table
    consistent again: a delete removes, nulls or unlinks exactly what would otherwise
    dangle. */
module Integrity {
  import opened Common
  import opened Entities
  import opened Cascade
  import TagLinks

  ghost predicate UsersOk(users: map<Id, User>) {
    && (forall id :: id in users ==> users[id].id == id)
    && (forall a, b :: a in users && b in users && users[a].email == users[b].email ==> a == b)
  }

  /** projects.user_id is nullable. */
  ghost predicate ProjectsOk(projects: map<Id, Project>, userIds: set<Id>) {
    forall id :: id in projects ==>
      projects[id].id == id && (projects[id].user.Some? ==> projects[id].user.value in userIds)
  }

  ghost predicate TagsOk(tags: map<Id, Tag>, userIds: set<Id>) {
    forall id :: id in tags ==> tags[id].id == id && tags[id].user in userIds
  }

  ghost predicate ElementOk(e: Element, id: Id, userIds: set<Id>, projectIds: set<Id>, tagIds: set<Id>) {
    && e.id == id
    && e.user in userIds
    && (e.project.Some? ==> e.project.value in projectIds)
    && (forall t :: t in e.tags ==> t in tagIds)
    && TagLinks.Distinct(e.tags)
  }

  ghost predicate ElementsOk(elements: map<Id, Element>, userIds: set<Id>, projectIds: set<Id>, tagIds: set<Id>) {
    forall id :: id in elements ==> ElementOk(elements[id], id, userIds, projectIds, tagIds)
  }

  ghost predicate ListsOk(lists: map<Id, TodoList>, elementIds: set<Id>) {
    forall id :: id in lists ==> lists[id].id == id && lists[id].element in elementIds
  }

  ghost predicate NotesOk(notes: map<Id, Note>, elementIds: set<Id>) {
    forall id :: id in notes ==> notes[id].id == id && notes[id].element in elementIds
  }

  ghost predicate TasksOk(tasks: map<Id, Task>, listIds: set<Id>) {
    forall id :: id in tasks ==> tasks[id].id == id && tasks[id].list in listIds
  }

  /** reminders.task_id is both a foreign key and unique (a one-to-one join column). */
  ghost predicate RemindersOk(reminders: map<Id, Reminder>, taskIds: set<Id>) {
    && (forall id :: id in reminders ==> reminders[id].id == id && reminders[id].task in taskIds)
    && (forall a, b :: a in reminders && b in reminders && reminders[a].task == reminders[b].task ==> a == b)
  }

  /** The whole schema: each table checked against the key sets it points at. */
  ghost predicate Consistent(users: map<Id, User>, projects: map<Id, Project>, tags: map<Id, Tag>,
                             elements: map<Id, Element>, lists: map<Id, TodoList>, notes: map<Id, Note>,
                             tasks: map<Id, Task>, reminders: map<Id, Reminder>)
  {
    && UsersOk(users)
    && ProjectsOk(projects, users.Keys)
    && TagsOk(tags, users.Keys)
    && ElementsOk(elements, users.Keys, projects.Keys, tags.Keys)
    && ListsOk(lists, elements.Keys)
    && NotesOk(notes, elements.Keys)
    && TasksOk(tasks, lists.Keys)
    && RemindersOk(reminders, tasks.Keys)
  }

  // ---------------------------------------------------------------- deletes

  /** Deleting a user takes its projects along; the remaining projects point elsewhere. */
  lemma ProjectsAfterUserDelete(projects: map<Id, Project>, userIds: set<Id>, user: Id)
    requires ProjectsOk(projects, userIds)
    ensures ProjectsOk(projects - ProjectsOfUser(projects, user), userIds - {user})
  {
    var gone := ProjectsOfUser(projects, user);
    forall id | id in projects - gone && projects[id].user.Some?
      ensures projects[id].user.value in userIds - {user}
    {
      assert id !in gone;
    }
  }

  /** Deleting a user takes its tags along. */
  lemma TagsAfterUserDelete(tags: map<Id, Tag>, userIds: set<Id>, user: Id)
    requires TagsOk(tags, userIds)
    ensures TagsOk(tags - TagsOfUser(tags, user), userIds - {user})
  {
    var gone := TagsOfUser(tags, user);
    forall id | id in tags - gone ensures tags[id].user in userIds - {user} {
      assert id !in gone;
    }
  }

  /** Deleting a user takes its elements along; the surviving elements of other users lose
      their link to the user's projects (SET NULL) and to the user's tags (join-table
      cascade). */
  lemma ElementsAfterUserDelete(elements: map<Id, Element>, userIds: set<Id>,
                                projects: map<Id, Project>, tags: map<Id, Tag>, user: Id)
    requires ElementsOk(elements, userIds, projects.Keys, tags.Keys)
    ensures ElementsOk(
      DropTagLinks(NullProjects(elements - ElementsOfUser(elements, user), ProjectsOfUser(projects, user)),
                   TagsOfUser(tags, user)),
      userIds - {user},
      projects.Keys - ProjectsOfUser(projects, user),
      tags.Keys - TagsOfUser(tags, user))
  {
    var goneE := ElementsOfUser(elements, user);
    var goneP := ProjectsOfUser(projects, user);
    var goneT := TagsOfUser(tags, user);
    var kept := elements - goneE;
    var nulled := NullProjects(kept, goneP);
    var result := DropTagLinks(nulled, goneT);
    forall id | id in result
      ensures ElementOk(result[id], id, userIds - {user}, projects.Keys - goneP, tags.Keys - goneT)
    {
      assert id in kept && id !in goneE;
      assert ElementOk(elements[id], id, userIds, projects.Keys, tags.Keys);
      assert nulled[id].(project := kept[id].project) == kept[id];
      assert result[id].(tags := nulled[id].tags) == nulled[id];
      forall t | t in result[id].tags ensures t in tags.Keys - goneT {
        assert t in nulled[id].tags && t !in goneT;
      }
      TagLinks.WithoutDistinct(nulled[id].tags, goneT);
    }
  }

  /** The full cascade of a user delete leaves the schema consistent. */
  lemma AfterUserDelete(users: map<Id, User>, projects: map<Id, Project>, tags: map<Id, Tag>,
                        elements: map<Id, Element>, lists: map<Id, TodoList>, notes: map<Id, Note>,
                        tasks: map<Id, Task>, reminders: map<Id, Reminder>, user: Id)
    requires Consistent(users, projects, tags, elements, lists, notes, tasks, reminders)
    ensures
      var goneE := ElementsOfUser(elements, user);
      var goneP := ProjectsOfUser(projects, user);
      var goneT := TagsOfUser(tags, user);
      var goneL := ListsOf(lists, goneE);
      var goneK := TasksOf(tasks, goneL);
      Consistent(users - {user}, projects - goneP, tags - goneT,
                 DropTagLinks(NullProjects(elements - goneE, goneP), goneT),
                 lists - goneL, notes - NotesOf(notes, goneE), tasks - goneK,
                 reminders - RemindersOf(reminders, goneK))
  {
    var goneE := ElementsOfUser(elements, user);
    var goneP := ProjectsOfUser(projects, user);
    var goneT := TagsOfUser(tags, user);
    var goneL := ListsOf(lists, goneE);
    var goneK := TasksOf(tasks, goneL);
    var elements' := DropTagLinks(NullProjects(elements - goneE, goneP), goneT);
    ProjectsAfterUserDelete(projects, users.Keys, user);
    TagsAfterUserDelete(tags, users.Keys, user);
    ElementsAfterUserDelete(elements, users.Keys, projects, tags, user);
    DependentsAfterDelete(lists, notes, tasks, reminders, elements.Keys, goneE);
    var users', projects', tags' := users - {user}, projects - goneP, tags - goneT;
    var lists', tasks' := lists - goneL, tasks - goneK;
    assert users'.Keys == users.Keys - {user};
    assert projects'.Keys == projects.Keys - goneP;
    assert tags'.Keys == tags.Keys - goneT;
    assert elements'.Keys == elements.Keys - goneE;
    assert lists'.Keys == lists.Keys - goneL;
    assert tasks'.Keys == tasks.Keys - goneK;
    assert UsersOk(users');
    assert ProjectsOk(projects', users'.Keys) && TagsOk(tags', users'.Keys);
    assert ElementsOk(elements', users'.Keys, projects'.Keys, tags'.Keys);
  }

  /** Deleting some elements takes their lists and notes along, then the lists' tasks and
      the tasks' reminders, and the four tables stay consistent. */
  lemma DependentsAfterDelete(lists: map<Id, TodoList>, notes: map<Id, Note>, tasks: map<Id, Task>,
                              reminders: map<Id, Reminder>, elementIds: set<Id>, gone: set<Id>)
    requires ListsOk(lists, elementIds) && NotesOk(notes, elementIds)
    requires TasksOk(tasks, lists.Keys) && RemindersOk(reminders, tasks.Keys)
    ensures
      var goneL := ListsOf(lists, gone);
      var goneK := TasksOf(tasks, goneL);
      && ListsOk(lists - goneL, elementIds - gone)
      && NotesOk(notes - NotesOf(notes, gone), elementIds - gone)
      && TasksOk(tasks - goneK, (lists - goneL).Keys)
      && RemindersOk(reminders - RemindersOf(reminders, goneK), (tasks - goneK).Keys)
  {
    var goneL := ListsOf(lists, gone);
    var goneK := TasksOf(tasks, goneL);
    ListsAfterDelete(lists, elementIds, gone);
    NotesAfterDelete(notes, elementIds, gone);
    TasksAfterDelete(tasks, lists.Keys, goneL);
    RemindersAfterDelete(reminders, tasks.Keys, goneK);
    assert (lists - goneL).Keys == lists.Keys - goneL;
    assert (tasks - goneK).Keys == tasks.Keys - goneK;
  }

  /** Deleting a user that does not exist cascades to nothing. */
  lemma UnknownUserCascade(users: map<Id, User>, projects: map<Id, Project>, tags: map<Id, Tag>,
                           elements: map<Id, Element>, user: Id)
    requires ProjectsOk(projects, users.Keys) && TagsOk(tags, users.Keys)
    requires ElementsOk(elements, users.Keys, projects.Keys, tags.Keys)
    requires user !in users
    ensures ProjectsOfUser(projects, user) == {}
    ensures TagsOfUser(tags, user) == {}
    ensures ElementsOfUser(elements, user) == {}
    ensures DropTagLinks(NullProjects(elements - {}, {}), {}) == elements
  {
    forall e | e in elements ensures elements[e].user != user {
      assert ElementOk(elements[e], e, users.Keys, projects.Keys, tags.Keys);
    }
    assert elements - {} == elements;
    NullProjectsNothing(elements);
    DropTagLinksNothing(elements);
  }

  /** Deleting an element leaves the other elements consistent. */
  lemma ElementsAfterElementDelete(elements: map<Id, Element>, userIds: set<Id>, projectIds: set<Id>,
                                   tagIds: set<Id>, id: Id)
    requires ElementsOk(elements, userIds, projectIds, tagIds)
    ensures ElementsOk(elements - {id}, userIds, projectIds, tagIds)
  {
  }

  /** Deleting a project nulls every reference to it. */
  lemma ElementsAfterProjectDelete(elements: map<Id, Element>, userIds: set<Id>, projectIds: set<Id>,
                                   tagIds: set<Id>, project: Id)
    requires ElementsOk(elements, userIds, projectIds, tagIds)
    ensures ElementsOk(NullProjects(elements, {project}), userIds, projectIds - {project}, tagIds)
  {
    var result := NullProjects(elements, {project});
    forall id | id in result ensures ElementOk(result[id], id, userIds, projectIds - {project}, tagIds) {
      assert ElementOk(elements[id], id, userIds, projectIds, tagIds);
      assert result[id].(project := elements[id].project) == elements[id];
    }
  }

  /** Deleting a tag removes every link to it. */
  lemma ElementsAfterTagDelete(elements: map<Id, Element>, userIds: set<Id>, projectIds: set<Id>,
                               tagIds: set<Id>, tag: Id)
    requires ElementsOk(elements, userIds, projectIds, tagIds)
    ensures ElementsOk(DropTagLinks(elements, {tag}), userIds, projectIds, tagIds - {tag})
  {
    var result := DropTagLinks(elements, {tag});
    forall id | id in result ensures ElementOk(result[id], id, userIds, projectIds, tagIds - {tag}) {
      assert ElementOk(elements[id], id, userIds, projectIds, tagIds);
      assert result[id].(tags := elements[id].tags) == elements[id];
      TagLinks.WithoutDistinct(elements[id].tags, {tag});
    }
  }

  /** The lists of deleted elements go with them. */
  lemma ListsAfterDelete(lists: map<Id, TodoList>, elementIds: set<Id>, gone: set<Id>)
    requires ListsOk(lists, elementIds)
    ensures ListsOk(lists - ListsOf(lists, gone), elementIds - gone)
  {
    var goneLists := ListsOf(lists, gone);
    forall id | id in lists - goneLists ensures lists[id].element in elementIds - gone {
      assert id !in goneLists;
    }
  }

  /** The notes of deleted elements go with them. */
  lemma NotesAfterDelete(notes: map<Id, Note>, elementIds: set<Id>, gone: set<Id>)
    requires NotesOk(notes, elementIds)
    ensures NotesOk(notes - NotesOf(notes, gone), elementIds - gone)
  {
    var goneNotes := NotesOf(notes, gone);
    forall id | id in notes - goneNotes ensures notes[id].element in elementIds - gone {
      assert id !in goneNotes;
    }
  }

  /** The tasks of deleted lists go with them. */
  lemma TasksAfterDelete(tasks: map<Id, Task>, listIds: set<Id>, gone: set<Id>)
    requires TasksOk(tasks, listIds)
    ensures TasksOk(tasks - TasksOf(tasks, gone), listIds - gone)
  {
    var goneTasks := TasksOf(tasks, gone);
    forall id | id in tasks - goneTasks ensures tasks[id].list in listIds - gone {
      assert id !in goneTasks;
    }
  }

  /** The reminders of deleted tasks go with them. */
  lemma RemindersAfterDelete(reminders: map<Id, Reminder>, taskIds: set<Id>, gone: set<Id>)
    requires RemindersOk(reminders, taskIds)
    ensures RemindersOk(reminders - RemindersOf(reminders, gone), taskIds - gone)
  {
    var goneReminders := RemindersOf(reminders, gone);
    forall id | id in reminders - goneReminders ensures reminders[id].task in taskIds - gone {
      assert id !in goneReminders;
    }
  }

  // ---------------------------------------------------------------- inserts

  /** A new reminder is consistent when its task exists and has no reminder yet. */
  lemma RemindersAfterInsert(reminders: map<Id, Reminder>, taskIds: set<Id>, x: Reminder)
    requires RemindersOk(reminders, taskIds)
    requires x.id !in reminders && x.task in taskIds
    requires forall id :: id in reminders ==> reminders[id].task != x.task
    ensures RemindersOk(reminders[x.id := x], taskIds)
  {
  }

  /** Rewriting a reminder without moving it to another task keeps the table consistent. */
  lemma RemindersAfterUpdate(reminders: map<Id, Reminder>, taskIds: set<Id>, x: Reminder)
    requires RemindersOk(reminders, taskIds)
    requires x.id in reminders && reminders[x.id].task == x.task
    ensures RemindersOk(reminders[x.id := x], taskIds)
  {
  }

  /** Linking an element to the fresh ids of a request for existing tags that repeats none
      of them keeps the elements valid. */
  lemma ElementsAfterLinkAdd(elements: map<Id, Element>, userIds: set<Id>, projectIds: set<Id>,
                             tagIds: set<Id>, id: Id, requested: seq<Id>)
    requires ElementsOk(elements, userIds, projectIds, tagIds)
    requires id in elements && forall t :: t in requested ==> t in tagIds
    requires !TagLinks.RepeatsFresh(elements[id].tags, requested)
    ensures ElementsOk(elements[id := elements[id].(tags := elements[id].tags + TagLinks.Fresh(elements[id].tags, requested))],
                       userIds, projectIds, tagIds)
  {
    var links := elements[id].tags;
    assert ElementOk(elements[id], id, userIds, projectIds, tagIds);
    TagLinks.AppendFreshDistinct(links, requested);
    var e := elements[id].(tags := links + TagLinks.Fresh(links, requested));
    assert ElementOk(e, id, userIds, projectIds, tagIds);
  }

  /** Linking an element to the fresh ids of a request for existing tags that repeats none
      of them keeps the schema consistent. */
  lemma AfterLinkAdd(users: map<Id, User>, projects: map<Id, Project>, tags: map<Id, Tag>,
                     elements: map<Id, Element>, lists: map<Id, TodoList>, notes: map<Id, Note>,
                     tasks: map<Id, Task>, reminders: map<Id, Reminder>, id: Id, requested: seq<Id>)
    requires Consistent(users, projects, tags, elements, lists, notes, tasks, reminders)
    requires id in elements && forall t :: t in requested ==> t in tags
    requires !TagLinks.RepeatsFresh(elements[id].tags, requested)
    ensures Consistent(users, projects, tags,
                       elements[id := elements[id].(tags := elements[id].tags + TagLinks.Fresh(elements[id].tags, requested))],
                       lists, notes, tasks, reminders)
  {
    var links := elements[id].tags;
    var elements' := elements[id := elements[id].(tags := links + TagLinks.Fresh(links, requested))];
    ElementsAfterLinkAdd(elements, users.Keys, projects.Keys, tags.Keys, id, requested);
    assert elements'.Keys == elements.Keys;
  }

  /** Unlinking some tags from an element keeps the elements valid. */
  lemma ElementsAfterLinkRemove(elements: map<Id, Element>, userIds: set<Id>, projectIds: set<Id>,
                                tagIds: set<Id>, id: Id, drop: set<Id>)
    requires ElementsOk(elements, userIds, projectIds, tagIds)
    requires id in elements
    ensures ElementsOk(elements[id := elements[id].(tags := TagLinks.Without(elements[id].tags, drop))],
                       userIds, projectIds, tagIds)
  {
    var links := elements[id].tags;
    assert ElementOk(elements[id], id, userIds, projectIds, tagIds);
    TagLinks.WithoutDistinct(links, drop);
    var e := elements[id].(tags := TagLinks.Without(links, drop));
    assert ElementOk(e, id, userIds, projectIds, tagIds);
  }

  /** Unlinking some tags from an element keeps the schema consistent. */
  lemma AfterLinkRemove(users: map<Id, User>, projects: map<Id, Project>, tags: map<Id, Tag>,
                        elements: map<Id, Element>, lists: map<Id, TodoList>, notes: map<Id, Note>,
                        tasks: map<Id, Task>, reminders: map<Id, Reminder>, id: Id, drop: set<Id>)
    requires Consistent(users, projects, tags, elements, lists, notes, tasks, reminders)
    requires id in elements
    ensures Consistent(users, projects, tags,
                       elements[id := elements[id].(tags := TagLinks.Without(elements[id].tags, drop))],
                       lists, notes, tasks, reminders)
  {
    var elements' := elements[id := elements[id].(tags := TagLinks.Without(elements[id].tags, drop))];
    ElementsAfterLinkRemove(elements, users.Keys, projects.Keys, tags.Keys, id, drop);
    assert elements'.Keys == elements.Keys;
  }

  /** A new user is consistent when no stored user has its email. */
  lemma UsersAfterInsert(users: map<Id, User>, u: User)
    requires UsersOk(users)
    requires u.id !in users
    requires forall id :: id in users ==> users[id].email != u.email
    ensures UsersOk(users[u.id := u])
  {
  }

  /** Element references stay valid when the tables they point at only gain rows. */
  lemma ElementsWiden(elements: map<Id, Element>, userIds: set<Id>, projectIds: set<Id>, tagIds: set<Id>,
                      userIds': set<Id>, projectIds': set<Id>)
    requires ElementsOk(elements, userIds, projectIds, tagIds)
    requires userIds <= userIds' && projectIds <= projectIds'
    ensures ElementsOk(elements, userIds', projectIds', tagIds)
  {
    forall id | id in elements ensures ElementOk(elements[id], id, userIds', projectIds', tagIds) {
      assert ElementOk(elements[id], id, userIds, projectIds, tagIds);
    }
  }

  /** A user with an unused email keeps the schema consistent. */
  lemma AfterUserInsert(users: map<Id, User>, projects: map<Id, Project>, tags: map<Id, Tag>,
                        elements: map<Id, Element>, lists: map<Id, TodoList>, notes: map<Id, Note>,
                        tasks: map<Id, Task>, reminders: map<Id, Reminder>, u: User)
    requires Consistent(users, projects, tags, elements, lists, notes, tasks, reminders)
    requires u.id !in users
    requires forall id :: id in users ==> users[id].email != u.email
    ensures Consistent(users[u.id := u], projects, tags, elements, lists, notes, tasks, reminders)
  {
    var users' := users[u.id := u];
    UsersAfterInsert(users, u);
    assert users.Keys <= users'.Keys;
    ElementsWiden(elements, users.Keys, projects.Keys, tags.Keys, users'.Keys, projects.Keys);
  }

  /** A project owned by no one or by a stored user keeps the schema consistent. */
  lemma AfterProjectInsert(users: map<Id, User>, projects: map<Id, Project>, tags: map<Id, Tag>,
                           elements: map<Id, Element>, lists: map<Id, TodoList>, notes: map<Id, Note>,
                           tasks: map<Id, Task>, reminders: map<Id, Reminder>, p: Project)
    requires Consistent(users, projects, tags, elements, lists, notes, tasks, reminders)
    requires p.id !in projects
    requires p.user.Some? ==> p.user.value in users
    ensures Consistent(users, projects[p.id := p], tags, elements, lists, notes, tasks, reminders)
  {
    var projects' := projects[p.id := p];
    assert projects.Keys <= projects'.Keys;
    ElementsWiden(elements, users.Keys, projects.Keys, tags.Keys, users.Keys, projects'.Keys);
  }
}
