/** Request payloads of the services and the read-merge-save overlays the update
    operations apply. A field of type Option is a key that may be absent from the body. */
module Dtos {
  import opened Common
  import opened Entities

  // ---------------------------------------------------------------- payloads

  datatype CreateElementDto = CreateElementDto(
    userId: Id, projectId: Option<Id>, title: string, assignedDate: Date)

  /** `status` is accepted by the validator but no column or service line uses it. */
  datatype UpdateElementDto = UpdateElementDto(
    projectId: Option<Id>, title: Option<string>, assignedDate: Option<Date>, status: Option<string>)

  datatype CreateTagDto = CreateTagDto(userId: Id, name: string, color: Option<string>)

  /** What ProjectsService.create receives: the body plus the caller's id under `userId`. */
  datatype CreateProjectDto = CreateProjectDto(
    userId: Id, name: string, color: Option<string>, icon: Option<string>)

  /** `type` is required; `order` may be missing or an explicit `null` (`@IsOptional`). */
  datatype CreateTodoListDto = CreateTodoListDto(
    elementId: Id, kind: TodoListType, order: Field<int>)
  datatype CreateNoteDto = CreateNoteDto(elementId: Id, content: string)
  datatype CreateTaskDto = CreateTaskDto(listId: Id, description: string)
  datatype CreateReminderDto = CreateReminderDto(taskId: Id, reminderDate: int)

  /* The bodies of the spread-based updates, as they reach the service. The global
     validation pipe refuses a body with a key the payload class does not declare
     (`whitelist` with `forbidNonWhitelisted`), so only declared keys arrive; each of them
     is optional and `@IsOptional` lets an explicit `null` through, so a key is absent,
     null or set. */

  datatype UpdateTagDto = UpdateTagDto(name: Field<string>, color: Field<string>)
  datatype UpdateProjectDto = UpdateProjectDto(
    name: Field<string>, color: Field<string>, icon: Field<string>)
  datatype UpdateTodoListDto = UpdateTodoListDto(content: Field<string>, order: Field<int>)
  datatype UpdateNoteDto = UpdateNoteDto(content: Field<string>)
  datatype UpdateTaskDto = UpdateTaskDto(description: Field<string>, completed: Field<bool>)
  /** `reminderDate` names no column of the row, whose date column is `date`. */
  datatype UpdateReminderDto = UpdateReminderDto(reminderDate: Field<string>, notified: Field<bool>)

  datatype CreateUserDto = CreateUserDto(
    email: string, password: string, name: string, lastName: string,
    phoneNumber: Option<string>, profileImageUrl: Option<string>, status: Option<UserStatus>)

  // ---------------------------------------------------------------- overlays

  /** The field part of ElementsService.update: a title or date overwrites only when it is
      truthy (a Date object always is); `status` is never read. The project is handled by
      the store, which has to look it up. */
  function OverlayElement(e: Element, dto: UpdateElementDto): (r: Element)
    ensures Truthy(dto.title) ==> r.title == dto.title.value
    ensures !Truthy(dto.title) ==> r.title == e.title
    ensures dto.assignedDate.Some? ==> r.assignedDate == dto.assignedDate.value
    ensures dto.assignedDate.None? ==> r.assignedDate == e.assignedDate
    ensures r.id == e.id && r.user == e.user && r.project == e.project && r.tags == e.tags
  {
    var e1 := if Truthy(dto.title) then e.(title := dto.title.value) else e;
    if dto.assignedDate.Some? then e1.(assignedDate := dto.assignedDate.value) else e1
  }

  /** The value of `status` never influences the update. */
  lemma OverlayIgnoresStatus(e: Element, dto: UpdateElementDto, status: Option<string>)
    ensures OverlayElement(e, dto.(status := status)) == OverlayElement(e, dto)
  {
  }

  // ---------------------------------------------------------------- spreads

  /** What `{ ...row, ...body }` does to a NOT NULL column when the save goes through: a
      missing key keeps the stored value and a present one overwrites it. */
  predicate Spread<T(==)>(f: Field<T>, stored: T, saved: T) {
    && (f.Absent? ==> saved == stored)
    && (f.Value? ==> saved == f.value)
  }

  /** The same for a nullable column, which an explicit `null` clears. */
  predicate SpreadNullable<T(==)>(f: Field<T>, stored: Option<T>, saved: Option<T>) {
    && (f.Absent? ==> saved == stored)
    && (f.Null? ==> saved == None)
    && (f.Value? ==> saved == Some(f.value))
  }

  function Overwrite<T>(f: Field<T>, stored: T): T {
    if f.Value? then f.value else stored
  }

  function OverwriteNullable<T>(f: Field<T>, stored: Option<T>): Option<T> {
    match f
    case Absent => stored
    case Null => None
    case Value(v) => Some(v)
  }

  /** `{ ...existingTag, ...tag, id }` saved: each key of the body overwrites its column, the
      path id is written last, and the NOT NULL `name` column refuses a null. */
  function MergeTag(existing: Tag, dto: UpdateTagDto, id: Id): (r: Result<Tag>)
    ensures r.Fail? <==> dto.name.Null?
    ensures r.Fail? ==> r.error == Conflict
    ensures r.Ok? ==> r.value.id == id && r.value.user == existing.user
    ensures r.Ok? ==> Spread(dto.name, existing.name, r.value.name)
    ensures r.Ok? ==> SpreadNullable(dto.color, existing.color, r.value.color)
  {
    if dto.name.Null? then Fail(Conflict)
    else Ok(Tag(id, existing.user, Overwrite(dto.name, existing.name),
                OverwriteNullable(dto.color, existing.color)))
  }

  /** `{ ...project, id }` saved over a stored project: the supplied columns change, a null
      name is refused, a null color or icon clears the column. */
  function MergeProject(existing: Project, dto: UpdateProjectDto, id: Id): (r: Result<Project>)
    ensures r.Fail? <==> dto.name.Null?
    ensures r.Fail? ==> r.error == Conflict
    ensures r.Ok? ==> r.value.id == id && r.value.user == existing.user
    ensures r.Ok? ==> Spread(dto.name, existing.name, r.value.name)
    ensures r.Ok? ==> SpreadNullable(dto.color, existing.color, r.value.color)
    ensures r.Ok? ==> SpreadNullable(dto.icon, existing.icon, r.value.icon)
  {
    if dto.name.Null? then Fail(Conflict)
    else Ok(Project(id, existing.user, Overwrite(dto.name, existing.name),
                    OverwriteNullable(dto.color, existing.color),
                    OverwriteNullable(dto.icon, existing.icon)))
  }

  /** `{ ...existingTodoList, ...todoList, id }`: content is nullable and order is NOT NULL;
      the body cannot name the element or the type, so both are kept. */
  function MergeTodoList(existing: TodoList, dto: UpdateTodoListDto, id: Id): (r: Result<TodoList>)
    ensures r.Fail? <==> dto.order.Null?
    ensures r.Fail? ==> r.error == Conflict
    ensures r.Ok? ==> r.value.id == id && r.value.element == existing.element
    ensures r.Ok? ==> r.value.kind == existing.kind
    ensures r.Ok? ==> SpreadNullable(dto.content, existing.content, r.value.content)
    ensures r.Ok? ==> Spread(dto.order, existing.order, r.value.order)
  {
    if dto.order.Null? then Fail(Conflict)
    else Ok(TodoList(id, existing.element, Overwrite(dto.order, existing.order), existing.kind,
                     OverwriteNullable(dto.content, existing.content)))
  }

  /** `{ ...existingNote, ...note, id }`: content is NOT NULL. */
  function MergeNote(existing: Note, dto: UpdateNoteDto, id: Id): (r: Result<Note>)
    ensures r.Fail? <==> dto.content.Null?
    ensures r.Fail? ==> r.error == Conflict
    ensures r.Ok? ==> r.value.id == id && r.value.element == existing.element
    ensures r.Ok? ==> Spread(dto.content, existing.content, r.value.content)
  {
    if dto.content.Null? then Fail(Conflict)
    else Ok(Note(id, existing.element, Overwrite(dto.content, existing.content)))
  }

  /** `{ ...existingTask, ...task, id }`: description and completed are NOT NULL. */
  function MergeTask(existing: Task, dto: UpdateTaskDto, id: Id): (r: Result<Task>)
    ensures r.Fail? <==> dto.description.Null? || dto.completed.Null?
    ensures r.Fail? ==> r.error == Conflict
    ensures r.Ok? ==> r.value.id == id && r.value.list == existing.list
    ensures r.Ok? ==> Spread(dto.description, existing.description, r.value.description)
    ensures r.Ok? ==> Spread(dto.completed, existing.completed, r.value.completed)
  {
    if dto.description.Null? || dto.completed.Null? then Fail(Conflict)
    else Ok(Task(id, existing.list, Overwrite(dto.description, existing.description),
                 Overwrite(dto.completed, existing.completed)))
  }

  /** `{ ...existingReminder, ...reminder }`: of the body's keys only `notified` names a
      column (NOT NULL); `reminderDate` is carried along but saved nowhere, so the stored
      date never changes. */
  function MergeReminder(existing: Reminder, dto: UpdateReminderDto): (r: Result<Reminder>)
    ensures r.Fail? <==> dto.notified.Null?
    ensures r.Fail? ==> r.error == Conflict
    ensures r.Ok? ==> r.value.id == existing.id && r.value.task == existing.task
    ensures r.Ok? ==> r.value.date == existing.date
    ensures r.Ok? ==> Spread(dto.notified, existing.notified, r.value.notified)
  {
    if dto.notified.Null? then Fail(Conflict)
    else Ok(existing.(notified := Overwrite(dto.notified, existing.notified)))
  }

  /** The value of `reminderDate` never influences the update. */
  lemma MergeReminderIgnoresReminderDate(existing: Reminder, dto: UpdateReminderDto, date: Field<string>)
    ensures MergeReminder(existing, dto.(reminderDate := date)) == MergeReminder(existing, dto)
  {
  }

  // ---------------------------------------------------------------- what a merge keeps

  /** A body with no key only re-keys the stored row to the path id. */
  lemma EmptyBodiesKeepRows(tag: Tag, project: Project, list: TodoList, note: Note, task: Task,
                            reminder: Reminder, id: Id)
    ensures MergeTag(tag, UpdateTagDto(Absent, Absent), id) == Ok(tag.(id := id))
    ensures MergeProject(project, UpdateProjectDto(Absent, Absent, Absent), id) == Ok(project.(id := id))
    ensures MergeTodoList(list, UpdateTodoListDto(Absent, Absent), id) == Ok(list.(id := id))
    ensures MergeNote(note, UpdateNoteDto(Absent), id) == Ok(note.(id := id))
    ensures MergeTask(task, UpdateTaskDto(Absent, Absent), id) == Ok(task.(id := id))
    ensures MergeReminder(reminder, UpdateReminderDto(Absent, Absent)) == Ok(reminder)
  {
  }

  /** Sending the same body twice saves what sending it once saved: each update is
      idempotent on the row. */
  lemma MergesIdempotent(tag: Tag, project: Project, list: TodoList, note: Note, task: Task,
                         reminder: Reminder, id: Id,
                         tagBody: UpdateTagDto, projectBody: UpdateProjectDto,
                         listBody: UpdateTodoListDto, noteBody: UpdateNoteDto,
                         taskBody: UpdateTaskDto, reminderBody: UpdateReminderDto)
    ensures MergeTag(tag, tagBody, id).Ok? ==>
              MergeTag(MergeTag(tag, tagBody, id).value, tagBody, id) == MergeTag(tag, tagBody, id)
    ensures MergeProject(project, projectBody, id).Ok? ==>
              MergeProject(MergeProject(project, projectBody, id).value, projectBody, id)
                == MergeProject(project, projectBody, id)
    ensures MergeTodoList(list, listBody, id).Ok? ==>
              MergeTodoList(MergeTodoList(list, listBody, id).value, listBody, id)
                == MergeTodoList(list, listBody, id)
    ensures MergeNote(note, noteBody, id).Ok? ==>
              MergeNote(MergeNote(note, noteBody, id).value, noteBody, id) == MergeNote(note, noteBody, id)
    ensures MergeTask(task, taskBody, id).Ok? ==>
              MergeTask(MergeTask(task, taskBody, id).value, taskBody, id) == MergeTask(task, taskBody, id)
    ensures MergeReminder(reminder, reminderBody).Ok? ==>
              MergeReminder(MergeReminder(reminder, reminderBody).value, reminderBody)
                == MergeReminder(reminder, reminderBody)
  {
  }

  // ---------------------------------------------------------------- inserts

  /** TodoListsService.create's row: `order` and `type` are passed on as sent. A missing
      order takes the column default; an explicit `null` is written as NULL, which the NOT
      NULL column refuses. Content starts null. */
  function NewTodoList(id: Id, dto: CreateTodoListDto): (r: Result<TodoList>)
    ensures r.Fail? <==> dto.order.Null?
    ensures r.Fail? ==> r.error == Conflict
    ensures r.Ok? ==> r.value.id == id && r.value.element == dto.elementId
    ensures r.Ok? ==> r.value.kind == dto.kind && r.value.content.None?
    ensures r.Ok? && dto.order.Absent? ==> r.value.order == DefaultListOrder
    ensures r.Ok? && dto.order.Value? ==> r.value.order == dto.order.value
  {
    match dto.order
    case Null => Fail(Conflict)
    case Absent => Ok(TodoList(id, dto.elementId, DefaultListOrder, dto.kind, None))
    case Value(n) => Ok(TodoList(id, dto.elementId, n, dto.kind, None))
  }

  /** `save({ ...project, userId })`: `userId` is no property of the entity (its owner is the
      `user` relation), so the row is inserted with no owner. */
  function NewProject(id: Id, dto: CreateProjectDto): (r: Project)
    ensures r.id == id && r.user.None?
    ensures r.name == dto.name && r.color == dto.color && r.icon == dto.icon
  {
    Project(id, None, dto.name, dto.color, dto.icon)
  }

  /** The caller's id never reaches the stored project. */
  lemma NewProjectIgnoresUserId(id: Id, dto: CreateProjectDto, userId: Id)
    ensures NewProject(id, dto.(userId := userId)) == NewProject(id, dto)
  {
  }

  /** `save({ ...project, id })` for an id that is not stored: an insert with no owner, which
      the NOT NULL `name` column refuses unless the body sets it. */
  function InsertedProject(dto: UpdateProjectDto, id: Id): (r: Result<Project>)
    ensures r.Fail? <==> !dto.name.Value?
    ensures r.Fail? ==> r.error == Conflict
    ensures r.Ok? ==> r.value.id == id && r.value.user.None? && r.value.name == dto.name.value
    ensures r.Ok? ==> r.value.color == dto.color.ToOption() && r.value.icon == dto.icon.ToOption()
  {
    if dto.name.Value? then Ok(Project(id, None, dto.name.value, dto.color.ToOption(), dto.icon.ToOption()))
    else Fail(Conflict)
  }

  /** `task.completed = !task.completed`. */
  function Toggled(t: Task): (r: Task)
    ensures r.completed != t.completed
    ensures r.id == t.id && r.list == t.list && r.description == t.description
  {
    t.(completed := !t.completed)
  }

  /** Toggling twice restores the task. */
  lemma ToggledTwice(t: Task)
    ensures Toggled(Toggled(t)) == t
  {
  }
}
