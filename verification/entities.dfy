/** One row type per table. Relations are stored as the id of the row they point at
    (the join column); the inverse sides (project.elements, element.lists, task.reminder, ...)
    are queries over the tables, not stored fields. */
module Entities {
  import opened Common

  datatype UserStatus = Active | Inactive | Deleted

  /** A row of `users`; phoneNumber and profileImageUrl are nullable. */
  datatype User = User(
    id: Id,
    email: string,
    password: string,
    name: string,
    lastName: string,
    phoneNumber: Option<string>,
    profileImageUrl: Option<string>,
    status: UserStatus)

  /** A row of `projects`; user_id is a nullable foreign key, color and icon are nullable. */
  datatype Project = Project(
    id: Id,
    user: Option<Id>,
    name: string,
    color: Option<string>,
    icon: Option<string>)

  /** A row of `tags`, owned by one user; color is nullable. */
  datatype Tag = Tag(id: Id, user: Id, name: string, color: Option<string>)

  /** Day-granular assigned date of an element, kept abstract. */
  type Date = int

  /** A row of `elements`. `tags` is the element's side of the `element_tags` join table:
      the linked tag ids, in the order they were linked. */
  datatype Element = Element(
    id: Id,
    user: Id,
    project: Option<Id>,
    title: string,
    assignedDate: Date,
    tags: seq<Id>)

  datatype TodoListType = NoteType | ListType

  /** A row of `todo_lists`; content is nullable. */
  datatype TodoList = TodoList(
    id: Id,
    element: Id,
    order: int,
    kind: TodoListType,
    content: Option<string>)

  /** A row of `notes`; content is required. */
  datatype Note = Note(id: Id, element: Id, content: string)

  /** A row of `tasks`. */
  datatype Task = Task(id: Id, list: Id, description: string, completed: bool)

  /** A row of `reminders`; `date` is the stored due instant, kept as an ordered key. */
  datatype Reminder = Reminder(id: Id, task: Id, date: int, notified: bool)

  // Column defaults declared on the entities.

  const DefaultUserStatus: UserStatus := Active
  const DefaultListOrder: int := 0
  const DefaultCompleted: bool := false
  const DefaultNotified: bool := false
}
