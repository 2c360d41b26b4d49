/** The relational store behind the services: one map per table, keyed by primary key.
    Each service operation is a method of the store; a failing operation writes nothing.
    The referential actions the storage would run on delete are performed explicitly. */
module StoreModel {
  import opened Common
  import opened Entities
  import opened Dtos
  import opened Cascade
  import opened Integrity
  import TagLinks
  import ReminderOrder

  class Store {
    var users: map<Id, User>
    var projects: map<Id, Project>
    var tags: map<Id, Tag>
    var elements: map<Id, Element>
    var lists: map<Id, TodoList>
    var notes: map<Id, Note>
    var tasks: map<Id, Task>
    var reminders: map<Id, Reminder>

    // ------------------------------------------------------------ invariant

    /** Every table satisfies the schema's key, foreign-key and unique constraints. */
    ghost predicate Valid()
      reads this
    {
      Consistent(users, projects, tags, elements, lists, notes, tasks, reminders)
    }

    constructor ()
      ensures Valid()
      ensures users == map[] && projects == map[] && tags == map[] && elements == map[]
      ensures lists == map[] && notes == map[] && tasks == map[] && reminders == map[]
    {
      users, projects, tags, elements := map[], map[], map[], map[];
      lists, notes, tasks, reminders := map[], map[], map[], map[];
    }

    // ------------------------------------------------------------ users

    /** Inserting a `users` row: the email must be unused, status defaults to active and the
        nullable columns default to null. */
    method InsertUser(newId: Id, dto: CreateUserDto) returns (r: Result<User>)
      requires Valid() && newId !in users
      modifies this`users
      ensures Valid()
      ensures r.Fail? <==> exists id :: id in old(users) && old(users)[id].email == dto.email
      ensures r.Fail? ==> r.error == Conflict && users == old(users)
      ensures r.Ok? ==> users == old(users)[newId := r.value]
      ensures r.Ok? ==> r.value == User(newId, dto.email, dto.password, dto.name, dto.lastName,
                                        dto.phoneNumber, dto.profileImageUrl,
                                        dto.status.GetOr(DefaultUserStatus))
    {
      if exists id | id in users :: users[id].email == dto.email {
        return Fail(Conflict);
      }
      var user := User(newId, dto.email, dto.password, dto.name, dto.lastName,
                       dto.phoneNumber, dto.profileImageUrl, dto.status.GetOr(DefaultUserStatus));
      AfterUserInsert(users, projects, tags, elements, lists, notes, tasks, reminders, user);
      users := users[newId := user];
      r := Ok(user);
    }

    /** Deleting a `users` row and everything its foreign keys take with it: the user's
        projects (their elements keep living with no project), tags (and their links),
        elements, and the elements' lists, notes, tasks and reminders. */
    method DeleteUser(id: Id)
      requires Valid()
      modifies this
      ensures Valid()
      ensures id !in old(users) ==> unchanged(this)
      ensures users == old(users) - {id}
      ensures projects == old(projects) - ProjectsOfUser(old(projects), id)
      ensures tags == old(tags) - TagsOfUser(old(tags), id)
      ensures elements == DropTagLinks(NullProjects(old(elements) - ElementsOfUser(old(elements), id),
                                                    ProjectsOfUser(old(projects), id)),
                                       TagsOfUser(old(tags), id))
      ensures lists == old(lists) - ListsOf(old(lists), ElementsOfUser(old(elements), id))
      ensures notes == old(notes) - NotesOf(old(notes), ElementsOfUser(old(elements), id))
      ensures tasks == old(tasks) - TasksOf(old(tasks), ListsOf(old(lists), ElementsOfUser(old(elements), id)))
      ensures reminders == old(reminders) - RemindersOf(old(reminders),
                TasksOf(old(tasks), ListsOf(old(lists), ElementsOfUser(old(elements), id))))
      ensures forall p :: p in projects ==> projects[p].user != Some(id)
      ensures forall t :: t in tags ==> tags[t].user != id
      ensures forall e :: e in elements ==> elements[e].user != id
    {
      if id !in users {
        UnknownUserCascade(users, projects, tags, elements, id);
        assert ListsOf(lists, {}) == {} && NotesOf(notes, {}) == {};
        assert TasksOf(tasks, {}) == {} && RemindersOf(reminders, {}) == {};
        RemoveNothing(projects);
        RemoveNothing(tags);
        RemoveNothing(lists);
        RemoveNothing(notes);
        RemoveNothing(tasks);
        RemoveNothing(reminders);
        return;
      }
      var goneProjects := ProjectsOfUser(projects, id);
      var goneTags := TagsOfUser(tags, id);
      var goneElements := ElementsOfUser(elements, id);
      var goneLists := ListsOf(lists, goneElements);
      var goneNotes := NotesOf(notes, goneElements);
      var goneTasks := TasksOf(tasks, goneLists);
      var goneReminders := RemindersOf(reminders, goneTasks);
      AfterUserDelete(users, projects, tags, elements, lists, notes, tasks, reminders, id);
      users, projects, tags := users - {id}, projects - goneProjects, tags - goneTags;
      elements := DropTagLinks(NullProjects(elements - goneElements, goneProjects), goneTags);
      lists, notes, tasks, reminders := lists - goneLists, notes - goneNotes, tasks - goneTasks, reminders - goneReminders;
    }

    // ------------------------------------------------------------ elements

    /** ElementsService.create. */
    method CreateElement(newId: Id, dto: CreateElementDto) returns (r: Result<Element>)
      requires Valid() && newId !in elements
      modifies this`elements
      ensures Valid()
      ensures r.Fail? <==> dto.userId !in users || (Truthy(dto.projectId) && dto.projectId.value !in projects)
      ensures r.Fail? ==> r.error == NotFound && elements == old(elements)
      ensures r.Ok? ==> elements == old(elements)[newId := r.value]
      ensures r.Ok? ==> r.value == Element(newId, dto.userId,
                                           if Truthy(dto.projectId) then dto.projectId else None,
                                           dto.title, dto.assignedDate, [])
    {
      if dto.userId !in users {
        return Fail(NotFound);
      }
      var element := Element(newId, dto.userId, None, dto.title, dto.assignedDate, []);
      if Truthy(dto.projectId) {
        if dto.projectId.value !in projects {
          return Fail(NotFound);
        }
        element := element.(project := dto.projectId);
      }
      elements := elements[newId := element];
      r := Ok(element);
    }

    /** ElementsService.findAllByUser. */
    function FindAllElementsByUser(userId: Id): (r: Result<set<Element>>)
      reads this
      ensures r.Fail? <==> userId !in users
      ensures r.Fail? ==> r.error == NotFound
      ensures r.Ok? ==> forall e :: e in r.value <==> e in elements.Values && e.user == userId
    {
      if userId !in users then Fail(NotFound)
      else Ok(set e | e in elements.Values && e.user == userId)
    }

    /** ElementsService.findAllByProject; this is also `project.elements`, the inverse side
        of element.project. */
    function FindAllElementsByProject(projectId: Id): (r: Result<set<Element>>)
      reads this
      ensures r.Fail? <==> projectId !in projects
      ensures r.Fail? ==> r.error == NotFound
      ensures r.Ok? ==> forall e :: e in r.value <==> e in elements.Values && e.project == Some(projectId)
    {
      if projectId !in projects then Fail(NotFound)
      else Ok(set e | e in elements.Values && e.project == Some(projectId))
    }

    /** ElementsService.findOne. */
    function FindOneElement(id: Id): (r: Result<Element>)
      reads this
      ensures r.Ok? <==> id in elements
      ensures r.Ok? ==> r.value == elements[id]
      ensures r.Fail? ==> r.error == NotFound
    {
      if id in elements then Ok(elements[id]) else Fail(NotFound)
    }

    /** ElementsService.update: look the element up, re-point it at a truthy projectId that
        exists, overlay the truthy fields, save. */
    method UpdateElement(id: Id, dto: UpdateElementDto) returns (r: Result<Element>)
      requires Valid()
      modifies this`elements
      ensures Valid()
      ensures r.Fail? <==> id !in old(elements) || (Truthy(dto.projectId) && dto.projectId.value !in projects)
      ensures r.Fail? ==> r.error == NotFound && elements == old(elements)
      ensures r.Ok? ==> elements == old(elements)[id := r.value]
      ensures r.Ok? ==> r.value == OverlayElement(old(elements)[id], dto).(
                          project := if Truthy(dto.projectId) then dto.projectId else old(elements)[id].project)
      ensures r.Ok? && old(elements)[id].project.Some? ==> r.value.project.Some?
    {
      if id !in elements {
        return Fail(NotFound);
      }
      var existing := elements[id];
      if Truthy(dto.projectId) {
        if dto.projectId.value !in projects {
          return Fail(NotFound);
        }
        existing := existing.(project := dto.projectId);
      }
      existing := OverlayElement(existing, dto);
      elements := elements[id := existing];
      r := Ok(existing);
    }

    /** ElementsService.delete: removes the element; its lists, their tasks and reminders,
        and its notes go with it. */
    method DeleteElement(id: Id) returns (r: Result<()>)
      requires Valid()
      modifies this`elements, this`lists, this`notes, this`tasks, this`reminders
      ensures Valid()
      ensures r.Fail? <==> id !in old(elements)
      ensures r.Fail? ==> r.error == NotFound && unchanged(this)
      ensures r.Ok? ==> elements == old(elements) - {id}
      ensures r.Ok? ==> lists == old(lists) - ListsOf(old(lists), {id})
      ensures r.Ok? ==> notes == old(notes) - NotesOf(old(notes), {id})
      ensures r.Ok? ==> tasks == old(tasks) - TasksOf(old(tasks), ListsOf(old(lists), {id}))
      ensures r.Ok? ==> reminders == old(reminders) - RemindersOf(old(reminders),
                          TasksOf(old(tasks), ListsOf(old(lists), {id})))
    {
      if id !in elements {
        return Fail(NotFound);
      }
      var goneLists := ListsOf(lists, {id});
      var goneTasks := TasksOf(tasks, goneLists);
      ElementsAfterElementDelete(elements, users.Keys, projects.Keys, tags.Keys, id);
      ListsAfterDelete(lists, elements.Keys, {id});
      NotesAfterDelete(notes, elements.Keys, {id});
      TasksAfterDelete(tasks, lists.Keys, goneLists);
      RemindersAfterDelete(reminders, tasks.Keys, goneTasks);
      elements := elements - {id};
      lists := lists - goneLists;
      notes := notes - NotesOf(notes, {id});
      tasks := tasks - goneTasks;
      reminders := reminders - RemindersOf(reminders, goneTasks);
      r := Ok(());
    }

    /** ElementsService.addTags: every requested tag must exist. The saved element carries
        the old links followed by the request, duplicates included; the join table gains
        only the requested ids not linked yet, and refuses the save when one of those is
        requested twice. */
    method AddTags(elementId: Id, tagIds: seq<Id>) returns (r: Result<Element>)
      requires Valid()
      modifies this`elements
      ensures Valid()
      ensures r.Fail? <==> || elementId !in old(elements)
                           || (exists t :: t in tagIds && t !in tags)
                           || TagLinks.RepeatsFresh(old(elements)[elementId].tags, tagIds)
      ensures r.Fail? && (elementId !in old(elements) || exists t :: t in tagIds && t !in tags) ==>
                r.error == NotFound
      ensures r.Fail? && elementId in old(elements) && (forall t :: t in tagIds ==> t in tags) ==>
                r.error == Conflict
      ensures r.Fail? ==> elements == old(elements)
      ensures r.Ok? ==> r.value == old(elements)[elementId].(tags := old(elements)[elementId].tags + tagIds)
      ensures r.Ok? ==> elements == old(elements)[elementId := old(elements)[elementId].(
                          tags := old(elements)[elementId].tags
                                  + TagLinks.Fresh(old(elements)[elementId].tags, tagIds))]
    {
      if elementId !in elements {
        return Fail(NotFound);
      }
      if exists t | t in tagIds :: t !in tags {
        return Fail(NotFound);
      }
      var element := elements[elementId];
      if TagLinks.RepeatsFresh(element.tags, tagIds) {
        return Fail(Conflict);
      }
      var newLinks := TagLinks.Fresh(element.tags, tagIds);
      AfterLinkAdd(users, projects, tags, elements, lists, notes, tasks, reminders, elementId, tagIds);
      elements := elements[elementId := element.(tags := element.tags + newLinks)];
      r := Ok(element.(tags := element.tags + tagIds));
    }

    /** ElementsService.removeTags: keeps, in order, exactly the links whose tag id is not
        requested; requested ids that are not attached are ignored. */
    method RemoveTags(elementId: Id, tagIds: seq<Id>) returns (r: Result<Element>)
      requires Valid()
      modifies this`elements
      ensures Valid()
      ensures r.Fail? <==> elementId !in old(elements)
      ensures r.Fail? ==> r.error == NotFound && elements == old(elements)
      ensures r.Ok? ==> r.value == old(elements)[elementId].(
                          tags := TagLinks.Without(old(elements)[elementId].tags, set t | t in tagIds))
      ensures r.Ok? ==> elements == old(elements)[elementId := r.value]
    {
      if elementId !in elements {
        return Fail(NotFound);
      }
      var element := elements[elementId];
      AfterLinkRemove(users, projects, tags, elements, lists, notes, tasks, reminders, elementId, set t | t in tagIds);
      element := element.(tags := TagLinks.Without(element.tags, set t | t in tagIds));
      elements := elements[elementId := element];
      r := Ok(element);
    }

    // ------------------------------------------------------------ tags

    /** TagsService.create. */
    method CreateTag(newId: Id, dto: CreateTagDto) returns (r: Result<Tag>)
      requires Valid() && newId !in tags
      modifies this`tags
      ensures Valid()
      ensures r.Fail? <==> dto.userId !in users
      ensures r.Fail? ==> r.error == NotFound && tags == old(tags)
      ensures r.Ok? ==> r.value == Tag(newId, dto.userId, dto.name, dto.color)
      ensures r.Ok? ==> tags == old(tags)[newId := r.value]
    {
      if dto.userId !in users {
        return Fail(NotFound);
      }
      var tag := Tag(newId, dto.userId, dto.name, dto.color);
      tags := tags[newId := tag];
      r := Ok(tag);
    }

    /** TagsService.findAllByUser. */
    function FindAllTagsByUser(userId: Id): (r: Result<set<Tag>>)
      reads this
      ensures r.Fail? <==> userId !in users
      ensures r.Fail? ==> r.error == NotFound
      ensures r.Ok? ==> forall t :: t in r.value <==> t in tags.Values && t.user == userId
    {
      if userId !in users then Fail(NotFound)
      else Ok(set t | t in tags.Values && t.user == userId)
    }

    /** TagsService.findOne. */
    function FindOneTag(id: Id): (r: Result<Tag>)
      reads this
      ensures r.Ok? <==> id in tags
      ensures r.Ok? ==> r.value == tags[id]
      ensures r.Fail? ==> r.error == NotFound
    {
      if id in tags then Ok(tags[id]) else Fail(NotFound)
    }

    /** TagsService.update: NotFound for an unknown id; otherwise the merge is saved, or
        refused by a NOT NULL column and nothing is written. */
    method UpdateTag(id: Id, dto: UpdateTagDto) returns (r: Result<Tag>)
      requires Valid()
      modifies this`tags
      ensures Valid()
      ensures id !in old(tags) ==> r == Fail(NotFound)
      ensures id in old(tags) ==> r == MergeTag(old(tags)[id], dto, id)
      ensures r.Fail? ==> tags == old(tags)
      ensures r.Ok? ==> tags == old(tags)[id := r.value] && tags.Keys == old(tags).Keys
    {
      if id !in tags {
        return Fail(NotFound);
      }
      r := MergeTag(tags[id], dto, id);
      if r.Ok? {
        tags := tags[id := r.value];
      }
    }

    /** TagsService.delete: removes the tag and, through the join table's foreign key, every
        element's link to it. */
    method DeleteTag(id: Id) returns (r: Result<()>)
      requires Valid()
      modifies this`tags, this`elements
      ensures Valid()
      ensures r.Fail? <==> id !in old(tags)
      ensures r.Fail? ==> r.error == NotFound && unchanged(this)
      ensures r.Ok? ==> tags == old(tags) - {id}
      ensures r.Ok? ==> elements == DropTagLinks(old(elements), {id})
      ensures forall e :: e in elements ==> id !in elements[e].tags
    {
      if id !in tags {
        return Fail(NotFound);
      }
      ElementsAfterTagDelete(elements, users.Keys, projects.Keys, tags.Keys, id);
      tags := tags - {id};
      elements := DropTagLinks(elements, {id});
      r := Ok(());
    }

    /** TagsService.findElementsByTag: `tag.elements`, the inverse side of element.tags. */
    function FindElementsByTag(tagId: Id): (r: Result<set<Element>>)
      reads this
      ensures r.Fail? <==> tagId !in tags
      ensures r.Fail? ==> r.error == NotFound
      ensures r.Ok? ==> forall e :: e in r.value <==> e in elements.Values && tagId in e.tags
    {
      if tagId !in tags then Fail(NotFound)
      else Ok(set e | e in elements.Values && tagId in e.tags)
    }

    // ------------------------------------------------------------ projects

    /** ProjectsService.create: saves the payload with no check; the caller's id names no
        column, so the project is stored without an owner and nothing can refuse it. */
    method CreateProject(newId: Id, dto: CreateProjectDto) returns (r: Project)
      requires Valid() && newId !in projects
      modifies this`projects
      ensures Valid()
      ensures r == NewProject(newId, dto)
      ensures projects == old(projects)[newId := r]
    {
      r := NewProject(newId, dto);
      AfterProjectInsert(users, projects, tags, elements, lists, notes, tasks, reminders, r);
      projects := projects[newId := r];
    }

    /** ProjectsService.findAll: every project of every user. */
    function FindAllProjects(): (r: set<Project>)
      reads this
      ensures forall p :: p in r <==> exists id :: id in projects && projects[id] == p
    {
      projects.Values
    }

    /** ProjectsService.findOne: null, not an error, for an unknown id. */
    function FindOneProject(id: Id): (r: Option<Project>)
      reads this
      ensures r.Some? <==> id in projects
      ensures r.Some? ==> r.value == projects[id]
    {
      if id in projects then Some(projects[id]) else None
    }

    /** ProjectsService.update: `{ ...project, id }` saved with no lookup. Saving an entity
        whose id is stored overwrites the supplied columns; saving one whose id is not
        stored inserts it, with no owner. A null or missing name where the row needs one is
        refused by the NOT NULL column. NotFound never happens. */
    method UpdateProject(id: Id, dto: UpdateProjectDto) returns (r: Result<Project>)
      requires Valid()
      modifies this`projects
      ensures Valid()
      ensures r != Fail(NotFound)
      ensures id in old(projects) ==> r == MergeProject(old(projects)[id], dto, id)
      ensures id !in old(projects) ==> r == InsertedProject(dto, id)
      ensures r.Fail? ==> projects == old(projects)
      ensures r.Ok? ==> projects == old(projects)[id := r.value]
    {
      if id in projects {
        r := MergeProject(projects[id], dto, id);
      } else {
        r := InsertedProject(dto, id);
      }
      if r.Ok? {
        projects := projects[id := r.value];
      }
    }

    /** ProjectsService.delete: no existence check; the elements of a deleted project stay
        and lose their project. */
    method DeleteProject(id: Id)
      requires Valid()
      modifies this`projects, this`elements
      ensures Valid()
      ensures id !in old(projects) ==> unchanged(this)
      ensures projects == old(projects) - {id}
      ensures elements == NullProjects(old(elements), {id})
      ensures elements.Keys == old(elements).Keys
      ensures forall e :: e in elements ==> elements[e].project != Some(id)
    {
      if id in projects {
        ElementsAfterProjectDelete(elements, users.Keys, projects.Keys, tags.Keys, id);
        projects := projects - {id};
        elements := NullProjects(elements, {id});
      } else {
        assert NullProjects(elements, {id}) == elements;
      }
    }

    // ------------------------------------------------------------ todo lists

    /** TodoListsService.create: NotFound for an unknown element; otherwise `NewTodoList`
        is saved, or refused by the NOT NULL `order` column with nothing written. */
    method CreateTodoList(newId: Id, dto: CreateTodoListDto) returns (r: Result<TodoList>)
      requires Valid() && newId !in lists
      modifies this`lists
      ensures Valid()
      ensures dto.elementId !in elements ==> r == Fail(NotFound)
      ensures dto.elementId in elements ==> r == NewTodoList(newId, dto)
      ensures r.Fail? ==> lists == old(lists)
      ensures r.Ok? ==> lists == old(lists)[newId := r.value]
    {
      if dto.elementId !in elements {
        return Fail(NotFound);
      }
      r := NewTodoList(newId, dto);
      if r.Ok? {
        lists := lists[newId := r.value];
      }
    }

    /** TodoListsService.findAllByElement: `element.lists`. */
    function FindAllListsByElement(elementId: Id): (r: Result<set<TodoList>>)
      reads this
      ensures r.Fail? <==> elementId !in elements
      ensures r.Fail? ==> r.error == NotFound
      ensures r.Ok? ==> forall l :: l in r.value <==> l in lists.Values && l.element == elementId
    {
      if elementId !in elements then Fail(NotFound)
      else Ok(set l | l in lists.Values && l.element == elementId)
    }

    /** TodoListsService.findOne. */
    function FindOneList(id: Id): (r: Result<TodoList>)
      reads this
      ensures r.Ok? <==> id in lists
      ensures r.Ok? ==> r.value == lists[id]
      ensures r.Fail? ==> r.error == NotFound
    {
      if id in lists then Ok(lists[id]) else Fail(NotFound)
    }

    /** TodoListsService.update: NotFound for an unknown id; otherwise the merge is saved, or
        refused by a NOT NULL column and nothing is written. */
    method UpdateTodoList(id: Id, dto: UpdateTodoListDto) returns (r: Result<TodoList>)
      requires Valid()
      modifies this`lists
      ensures Valid()
      ensures id !in old(lists) ==> r == Fail(NotFound)
      ensures id in old(lists) ==> r == MergeTodoList(old(lists)[id], dto, id)
      ensures r.Fail? ==> lists == old(lists)
      ensures r.Ok? ==> lists == old(lists)[id := r.value]
    {
      if id !in lists {
        return Fail(NotFound);
      }
      r := MergeTodoList(lists[id], dto, id);
      if r.Ok? {
        lists := lists[id := r.value];
      }
    }

    /** TodoListsService.delete: the list's tasks and their reminders go with it. */
    method DeleteTodoList(id: Id) returns (r: Result<()>)
      requires Valid()
      modifies this`lists, this`tasks, this`reminders
      ensures Valid()
      ensures r.Fail? <==> id !in old(lists)
      ensures r.Fail? ==> r.error == NotFound && unchanged(this)
      ensures r.Ok? ==> lists == old(lists) - {id}
      ensures r.Ok? ==> tasks == old(tasks) - TasksOf(old(tasks), {id})
      ensures r.Ok? ==> reminders == old(reminders) - RemindersOf(old(reminders), TasksOf(old(tasks), {id}))
    {
      if id !in lists {
        return Fail(NotFound);
      }
      var goneTasks := TasksOf(tasks, {id});
      TasksAfterDelete(tasks, lists.Keys, {id});
      RemindersAfterDelete(reminders, tasks.Keys, goneTasks);
      lists := lists - {id};
      tasks := tasks - goneTasks;
      reminders := reminders - RemindersOf(reminders, goneTasks);
      r := Ok(());
    }

    // ------------------------------------------------------------ notes

    /** NotesService.create. */
    method CreateNote(newId: Id, dto: CreateNoteDto) returns (r: Result<Note>)
      requires Valid() && newId !in notes
      modifies this`notes
      ensures Valid()
      ensures r.Fail? <==> dto.elementId !in elements
      ensures r.Fail? ==> r.error == NotFound && notes == old(notes)
      ensures r.Ok? ==> r.value == Note(newId, dto.elementId, dto.content)
      ensures r.Ok? ==> notes == old(notes)[newId := r.value]
    {
      if dto.elementId !in elements {
        return Fail(NotFound);
      }
      var note := Note(newId, dto.elementId, dto.content);
      notes := notes[newId := note];
      r := Ok(note);
    }

    /** NotesService.findAllByElement: `element.notes`. */
    function FindAllNotesByElement(elementId: Id): (r: Result<set<Note>>)
      reads this
      ensures r.Fail? <==> elementId !in elements
      ensures r.Fail? ==> r.error == NotFound
      ensures r.Ok? ==> forall n :: n in r.value <==> n in notes.Values && n.element == elementId
    {
      if elementId !in elements then Fail(NotFound)
      else Ok(set n | n in notes.Values && n.element == elementId)
    }

    /** NotesService.findOne. */
    function FindOneNote(id: Id): (r: Result<Note>)
      reads this
      ensures r.Ok? <==> id in notes
      ensures r.Ok? ==> r.value == notes[id]
      ensures r.Fail? ==> r.error == NotFound
    {
      if id in notes then Ok(notes[id]) else Fail(NotFound)
    }

    /** NotesService.update: NotFound for an unknown id; otherwise the merge is saved, or
        refused by a NOT NULL column and nothing is written. */
    method UpdateNote(id: Id, dto: UpdateNoteDto) returns (r: Result<Note>)
      requires Valid()
      modifies this`notes
      ensures Valid()
      ensures id !in old(notes) ==> r == Fail(NotFound)
      ensures id in old(notes) ==> r == MergeNote(old(notes)[id], dto, id)
      ensures r.Fail? ==> notes == old(notes)
      ensures r.Ok? ==> notes == old(notes)[id := r.value]
    {
      if id !in notes {
        return Fail(NotFound);
      }
      r := MergeNote(notes[id], dto, id);
      if r.Ok? {
        notes := notes[id := r.value];
      }
    }

    /** NotesService.delete. */
    method DeleteNote(id: Id) returns (r: Result<()>)
      requires Valid()
      modifies this`notes
      ensures Valid()
      ensures r.Fail? <==> id !in old(notes)
      ensures r.Fail? ==> r.error == NotFound && notes == old(notes)
      ensures r.Ok? ==> notes == old(notes) - {id}
    {
      if id !in notes {
        return Fail(NotFound);
      }
      notes := notes - {id};
      r := Ok(());
    }

    // ------------------------------------------------------------ tasks

    /** TasksService.create: a new task is not completed. */
    method CreateTask(newId: Id, dto: CreateTaskDto) returns (r: Result<Task>)
      requires Valid() && newId !in tasks
      modifies this`tasks
      ensures Valid()
      ensures r.Fail? <==> dto.listId !in lists
      ensures r.Fail? ==> r.error == NotFound && tasks == old(tasks)
      ensures r.Ok? ==> r.value == Task(newId, dto.listId, dto.description, DefaultCompleted)
      ensures r.Ok? ==> !r.value.completed
      ensures r.Ok? ==> tasks == old(tasks)[newId := r.value]
    {
      if dto.listId !in lists {
        return Fail(NotFound);
      }
      var task := Task(newId, dto.listId, dto.description, DefaultCompleted);
      tasks := tasks[newId := task];
      r := Ok(task);
    }

    /** TasksService.findAllByList: `list.tasks`. */
    function FindAllTasksByList(listId: Id): (r: Result<set<Task>>)
      reads this
      ensures r.Fail? <==> listId !in lists
      ensures r.Fail? ==> r.error == NotFound
      ensures r.Ok? ==> forall t :: t in r.value <==> t in tasks.Values && t.list == listId
    {
      if listId !in lists then Fail(NotFound)
      else Ok(set t | t in tasks.Values && t.list == listId)
    }

    /** TasksService.findOne. */
    function FindOneTask(id: Id): (r: Result<Task>)
      reads this
      ensures r.Ok? <==> id in tasks
      ensures r.Ok? ==> r.value == tasks[id]
      ensures r.Fail? ==> r.error == NotFound
    {
      if id in tasks then Ok(tasks[id]) else Fail(NotFound)
    }

    /** TasksService.update: NotFound for an unknown id; otherwise the merge is saved, or
        refused by a NOT NULL column and nothing is written. */
    method UpdateTask(id: Id, dto: UpdateTaskDto) returns (r: Result<Task>)
      requires Valid()
      modifies this`tasks
      ensures Valid()
      ensures id !in old(tasks) ==> r == Fail(NotFound)
      ensures id in old(tasks) ==> r == MergeTask(old(tasks)[id], dto, id)
      ensures r.Fail? ==> tasks == old(tasks)
      ensures r.Ok? ==> tasks == old(tasks)[id := r.value]
    {
      if id !in tasks {
        return Fail(NotFound);
      }
      r := MergeTask(tasks[id], dto, id);
      if r.Ok? {
        tasks := tasks[id := r.value];
      }
    }

    /** TasksService.delete: the task's reminder goes with it. */
    method DeleteTask(id: Id) returns (r: Result<()>)
      requires Valid()
      modifies this`tasks, this`reminders
      ensures Valid()
      ensures r.Fail? <==> id !in old(tasks)
      ensures r.Fail? ==> r.error == NotFound && unchanged(this)
      ensures r.Ok? ==> tasks == old(tasks) - {id}
      ensures r.Ok? ==> reminders == old(reminders) - RemindersOf(old(reminders), {id})
    {
      if id !in tasks {
        return Fail(NotFound);
      }
      RemindersAfterDelete(reminders, tasks.Keys, {id});
      tasks := tasks - {id};
      reminders := reminders - RemindersOf(reminders, {id});
      r := Ok(());
    }

    /** TasksService.toggleComplete: flips `completed` in the loaded task and saves it. */
    method ToggleComplete(id: Id) returns (r: Result<Task>)
      requires Valid()
      modifies this`tasks
      ensures Valid()
      ensures r.Fail? <==> id !in old(tasks)
      ensures r.Fail? ==> r.error == NotFound && tasks == old(tasks)
      ensures r.Ok? ==> r.value == Toggled(old(tasks)[id])
      ensures r.Ok? ==> tasks == old(tasks)[id := r.value]
    {
      if id !in tasks {
        return Fail(NotFound);
      }
      var task := tasks[id];
      task := task.(completed := !task.completed);
      tasks := tasks[id := task];
      r := Ok(task);
    }

    // ------------------------------------------------------------ reminders

    /** RemindersService.create: the reminder's date is the payload's reminderDate and it is
        not yet notified; the unique task_id refuses a second reminder for the same task. */
    method CreateReminder(newId: Id, dto: CreateReminderDto) returns (r: Result<Reminder>)
      requires Valid() && newId !in reminders
      modifies this`reminders
      ensures Valid()
      ensures r.Fail? <==> dto.taskId !in tasks || exists id :: id in old(reminders) && old(reminders)[id].task == dto.taskId
      ensures r.Fail? ==> reminders == old(reminders)
      ensures r.Fail? ==> (r.error == NotFound <==> dto.taskId !in tasks)
      ensures r.Ok? ==> r.value == Reminder(newId, dto.taskId, dto.reminderDate, DefaultNotified)
      ensures r.Ok? ==> !r.value.notified
      ensures r.Ok? ==> reminders == old(reminders)[newId := r.value]
    {
      if dto.taskId !in tasks {
        return Fail(NotFound);
      }
      if exists id | id in reminders :: reminders[id].task == dto.taskId {
        return Fail(Conflict);
      }
      var reminder := Reminder(newId, dto.taskId, dto.reminderDate, DefaultNotified);
      RemindersAfterInsert(reminders, tasks.Keys, reminder);
      reminders := reminders[newId := reminder];
      r := Ok(reminder);
    }

    /** RemindersService.findAllByTask: `task.reminder`, which holds at most one row. */
    function FindAllRemindersByTask(taskId: Id): (r: Result<set<Reminder>>)
      reads this
      ensures r.Fail? <==> taskId !in tasks
      ensures r.Fail? ==> r.error == NotFound
      ensures r.Ok? ==> forall x :: x in r.value <==> x in reminders.Values && x.task == taskId
    {
      if taskId !in tasks then Fail(NotFound)
      else Ok(set x | x in reminders.Values && x.task == taskId)
    }

    /** Under the unique task_id, a task's reminder lookup finds at most one row. */
    lemma RemindersByTaskAtMostOne(taskId: Id)
      requires Valid() && taskId in tasks
      ensures |FindAllRemindersByTask(taskId).value| <= 1
    {
      AtMostOneReminder(taskId, FindAllRemindersByTask(taskId).value);
    }

    /** RemindersService.findOne. */
    function FindOneReminder(id: Id): (r: Result<Reminder>)
      reads this
      ensures r.Ok? <==> id in reminders
      ensures r.Ok? ==> r.value == reminders[id]
      ensures r.Fail? ==> r.error == NotFound
    {
      if id in reminders then Ok(reminders[id]) else Fail(NotFound)
    }

    /** RemindersService.update: NotFound for an unknown id; otherwise the merge is saved,
        or refused by a NOT NULL column and nothing is written. */
    method UpdateReminder(id: Id, dto: UpdateReminderDto) returns (r: Result<Reminder>)
      requires Valid()
      modifies this`reminders
      ensures Valid()
      ensures id !in old(reminders) ==> r == Fail(NotFound)
      ensures id in old(reminders) ==> r == MergeReminder(old(reminders)[id], dto)
      ensures r.Fail? ==> reminders == old(reminders)
      ensures r.Ok? ==> reminders == old(reminders)[id := r.value]
    {
      if id !in reminders {
        return Fail(NotFound);
      }
      r := MergeReminder(reminders[id], dto);
      if r.Ok? {
        RemindersAfterUpdate(reminders, tasks.Keys, r.value);
        reminders := reminders[id := r.value];
      }
    }

    /** RemindersService.delete. */
    method DeleteReminder(id: Id) returns (r: Result<()>)
      requires Valid()
      modifies this`reminders
      ensures Valid()
      ensures r.Fail? <==> id !in old(reminders)
      ensures r.Fail? ==> r.error == NotFound && reminders == old(reminders)
      ensures r.Ok? ==> reminders == old(reminders) - {id}
    {
      if id !in reminders {
        return Fail(NotFound);
      }
      reminders := reminders - {id};
      r := Ok(());
    }

    /** The user at the end of the reminder → task → list → element chain, when every link
        of the chain joins. */
    function OwnerOf(x: Reminder): (r: Option<Id>)
      reads this
      ensures r.Some? <==> x.task in tasks && tasks[x.task].list in lists && lists[tasks[x.task].list].element in elements
      ensures r.Some? ==> r.value == elements[lists[tasks[x.task].list].element].user
    {
      if x.task in tasks && tasks[x.task].list in lists && lists[tasks[x.task].list].element in elements
      then Some(elements[lists[tasks[x.task].list].element].user)
      else None
    }

    /** The WHERE clause of the date-range scan: owned by the user, inside the inclusive
        window, not yet notified. */
    predicate Due(x: Reminder, userId: Id, start: int, end: int)
      reads this
    {
      OwnerOf(x) == Some(userId) && start <= x.date <= end && !x.notified
    }

    /** The rows the date-range scan selects, before ordering. */
    function DueRows(userId: Id, start: int, end: int): (s: set<Reminder>)
      reads this
      ensures forall x :: x in s <==> x in reminders.Values && Due(x, userId, start, end)
    {
      set x | x in reminders.Values && Due(x, userId, start, end)
    }

    /** RemindersService.findAllByDateRange: the due rows, each once, ordered by date. */
    method FindAllRemindersByDateRange(userId: Id, start: int, end: int) returns (r: seq<Reminder>)
      ensures ReminderOrder.SortedByDate(r)
      ensures multiset(r) == multiset(DueRows(userId, start, end))
      ensures forall x :: x in r <==> x in reminders.Values && Due(x, userId, start, end)
      ensures forall i :: 0 <= i < |r| ==> start <= r[i].date <= end && !r[i].notified
      ensures Valid() && userId !in users ==> r == []
    {
      var due := DueRows(userId, start, end);
      r := ReminderOrder.SortByDate(due);
      forall i | 0 <= i < |r| ensures r[i] in due {
        assert r[i] in r;
      }
      assert Valid() && userId !in users ==> r == [] by {
        if Valid() && userId !in users {
          NothingDueForUnknownUser(userId, start, end);
          assert |r| == |multiset(due)| == 0;
        }
      }
    }

    /** A due reminder belongs, through its chain, to an element of an existing user. */
    lemma NothingDueForUnknownUser(userId: Id, start: int, end: int)
      requires Valid() && userId !in users
      ensures DueRows(userId, start, end) == {}
    {
      forall x | x in reminders.Values ensures !Due(x, userId, start, end) {
        if OwnerOf(x).Some? {
          var e := lists[tasks[x.task].list].element;
          assert ElementOk(elements[e], e, users.Keys, projects.Keys, tags.Keys);
        }
      }
    }

    /** Two distinct reminders of one task would share the unique task_id. */
    lemma AtMostOneReminder(taskId: Id, found: set<Reminder>)
      requires Valid()
      requires forall x :: x in found <==> x in reminders.Values && x.task == taskId
      ensures |found| <= 1
    {
      if found != {} {
        var x :| x in found;
        forall y | y in found ensures y == x {
          var a :| a in reminders && reminders[a] == x;
          var b :| b in reminders && reminders[b] == y;
        }
        assert found == {x};
      }
    }
  }

  /** A client's view: toggling a task twice restores the tasks table. */
  method ToggleTwiceRestores(store: Store, id: Id)
    requires store.Valid() && id in store.tasks
    modifies store`tasks
    ensures store.Valid()
    ensures store.tasks == old(store.tasks)
  {
    var first := store.ToggleComplete(id);
    var second := store.ToggleComplete(id);
    ToggledTwice(old(store.tasks)[id]);
    assert store.tasks[id] == old(store.tasks)[id];
  }

  /** A client's view: repeating a successful addTags with the same ids succeeds and leaves
      the stored links as the first call left them. */
  method AddTagsTwice(store: Store, elementId: Id, tagIds: seq<Id>)
    returns (first: Result<Element>, second: Result<Element>)
    requires store.Valid()
    modifies store`elements
    ensures store.Valid()
    ensures first.Ok? ==> second.Ok?
    ensures first.Ok? ==> elementId in old(store.elements) && elementId in store.elements
    ensures first.Ok? && elementId in old(store.elements) ==>
              store.elements[elementId].tags
                == old(store.elements)[elementId].tags
                   + TagLinks.Fresh(old(store.elements)[elementId].tags, tagIds)
  {
    first := store.AddTags(elementId, tagIds);
    ghost var once := store.elements;
    if first.Ok? {
      TagLinks.AddTwiceAddsNothing(old(store.elements)[elementId].tags, tagIds);
    }
    second := store.AddTags(elementId, tagIds);
    if first.Ok? {
      assert store.elements[elementId].tags == once[elementId].tags + [];
    }
  }
}
