# myagen-server domain model in Dafny

This project models the domain core of a NestJS/TypeORM productivity backend. A user owns
projects, tags and elements (dated agenda items). An element may belong to one project and
may carry tags. It holds todo lists and notes, a list holds tasks, and a task may have one
reminder.

The model has three parts:

- **The relational store** (`store.dfy`). `StoreModel.Store` is a class with one map per
  table (users, projects, tags, elements, lists, notes, tasks, reminders). Every service
  operation of the seven services is a method or function on it.
  - A method returns `Ok(row)`, or `Fail(NotFound)` and writes nothing.
  - `Fail(Conflict)` stands for a storage constraint refusing the write and writes nothing
    either: the unique email, the unique one-to-one `reminders.task_id`, a NOT NULL column
    that an update body sets to null or that a project insert leaves empty, or an
    `element_tags` row that one `addTags` inserts twice.
  - The class invariant `Valid()` is the schema's integrity (`integrity.dfy`): every row is
    stored under its key, every foreign key names an existing row, the unique columns
    hold no duplicates, and the `element_tags` key `(element_id, tag_id)` links an element
    to a tag at most once. Every method keeps it.
  - The storage's referential actions are done explicitly, through the pure gone-set and
    rewrite functions of `cascade.dfy`. These are ON DELETE CASCADE from user to projects,
    tags and elements, from element to lists and notes, from list to tasks, and from task to
    reminder. Project deletion is ON DELETE SET NULL on `element.project`, and the
    `element_tags` join-table links cascade on delete.
  - New primary keys (generated uuids) are parameters that must be unused.
- **Payload overlays and sequence operations**:
  - `dtos.dfy` holds the read-merge-save overlays of the update operations. An update body
    is modelled as it reaches the service. The global validation pipe (`whitelist` with
    `forbidNonWhitelisted`) refuses any key the payload class does not declare, so only
    declared keys arrive. `@IsOptional` lets an explicit `null` through, so each declared
    key is absent, null or set. `Spread` and `SpreadNullable` state what the spread does to
    one column.
  - `tag_links.dfy` holds the tag-link filter of `removeTags`, the fresh-id diff of
    `addTags`, and the proofs that both keep an element's links free of repeats.
  - `reminder_order.dfy` holds the date ordering of the reminder scan.
- **Pure helpers**: the permission bitmask check (`permissions.dfy`), the query coercions
  (`parsers.dfy`), the `Bearer` cookie token extraction and the guard's no-token branch
  (`auth_guard.dfy`), the response envelope (`transform_interceptor.dfy`), and the
  user-response field projection (`user_response.dfy`). JavaScript values and truthiness
  are in `js_values.dfy`.

Where a relation has an inverse side (`project.elements`, `element.lists`, `tag.elements`,
`task.reminder`, ...), the model does not store it. It is the query over the owning table,
and the corresponding `FindAll...` function states it as an if-and-only-if.

Behaviours of the code that a reader might not expect are modelled as written:

- `addTags` saves the old tags followed by every requested tag. The element it returns
  carries that array, duplicates included. Saving diffs the array against the join rows,
  so only requested ids not linked yet are stored, and repeating the call stores nothing
  new. A request naming a not-yet-linked id twice inserts the same join row twice, which
  the table's primary key refuses.
- The update spreads copy the declared keys the body holds. A `null` clears a nullable
  column (a tag's color, a list's content) and is refused by a NOT NULL one (a note's
  content, a reminder's `notified`). The reminder key `reminderDate` names no column, so
  an update never changes a reminder's date; no update key names a list's type either.
- Creating a list with `"order": null` writes NULL into the NOT NULL `order` column, which
  the storage refuses; a missing order takes the default 0.
- The project service performs no existence checks. A created project has no owner: the
  controller adds the caller's id under `userId`, which is not a property of the entity,
  whose owner is the `user` relation.

## Model

| member | source | states |
|---|---|---|
| Dtos.OverlayElement | src/elements/elements.service.ts:143-145 | title is overwritten only by a truthy title and the date only by a supplied date; id, owner, project and tags are untouched |
| Dtos.OverlayIgnoresStatus | src/elements/elements.service.ts:143-147 | the `status` key of the update payload never influences the stored element |
| Dtos.MergeTag | src/tags/tags.service.ts:95 | Conflict iff the body sets `name` to null; otherwise each column follows the spread (absent keeps, a value overwrites, null clears `color`), the id is the path id and the owner is kept |
| Dtos.MergeProject | src/projects/projects.service.ts:48 | Conflict iff the body sets `name` to null; otherwise name, color and icon follow the spread (null clears color and icon), the id is the path id and the owner is kept |
| Dtos.MergeTodoList | src/todo-lists/todo-lists.service.ts:85-93 | Conflict iff the body sets `order` to null; otherwise content follows the nullable spread and order the NOT NULL one; the id is the path id, and the element and the type are kept |
| Dtos.MergeNote | src/notes/notes.service.ts:84-92 | Conflict iff the body sets `content` to null; otherwise content follows the spread, the id is the path id and the element is kept |
| Dtos.MergeTask | src/tasks/tasks.service.ts:84-92 | Conflict iff the body sets `description` or `completed` to null; otherwise both follow the spread, the id is the path id and the list is kept |
| Dtos.MergeReminder | src/reminders/reminders.service.ts:106-113 | Conflict iff the body sets `notified` to null; otherwise `notified` follows the spread and id, task and date are kept, so `notified` is the only column an update changes |
| Dtos.MergeReminderIgnoresReminderDate | src/reminders/reminders.service.ts:112 | the declared `reminderDate` key never influences the saved reminder |
| Dtos.EmptyBodiesKeepRows | src/tasks/tasks.service.ts:84-92 | an update body with no key saves every merged row unchanged except for the path id |
| Dtos.MergesIdempotent | src/todo-lists/todo-lists.service.ts:85-93 | saving the same update body twice gives the row that saving it once gave, for every merge |
| Dtos.NewTodoList | src/todo-lists/todo-lists.service.ts:32-36 | Conflict iff the body's `order` is null; otherwise the list has the given element and type, no content, and the given order or 0 when it is missing |
| Dtos.NewProject | src/projects/projects.service.ts:20-22 | the inserted project has the payload's name, color and icon and no owner |
| Dtos.NewProjectIgnoresUserId | src/projects/projects.controller.ts:33 | the `userId` the controller adds never influences the stored project |
| Dtos.InsertedProject | src/projects/projects.service.ts:47-49 | saving a body under an unstored id inserts an owner-less project, refused with Conflict iff the body does not set a name; an absent or null color or icon is stored as null |
| Dtos.Toggled | src/tasks/tasks.service.ts:121 | `completed` is negated and id, list and description are unchanged |
| Dtos.ToggledTwice | src/tasks/tasks.service.ts:121 | toggling twice restores the task |
| TagLinks.Without | src/elements/elements.service.ts:214 | the result keeps exactly the ids not requested, each as often as before, and never a requested id |
| TagLinks.WithoutConcat | src/elements/elements.service.ts:214 | filtering distributes over concatenation, so kept links keep their relative order |
| TagLinks.WithoutAbsent | src/elements/elements.service.ts:214 | removing ids none of which is attached leaves the links unchanged, without error |
| TagLinks.WithoutIdempotent | src/elements/elements.service.ts:214 | removing the same ids twice is removing them once |
| TagLinks.RemoveAfterAdd | src/elements/elements.service.ts:193-214 | removing every id that addTags just added gives the old links minus those ids |
| TagLinks.Fresh | src/elements/elements.service.ts:193-194 | an id is inserted into the join table iff it is requested and not linked yet |
| TagLinks.AddTwiceAddsNothing | src/elements/elements.service.ts:193-194 | after an addTags, the same request inserts no join row and cannot repeat a fresh id |
| TagLinks.WithoutGone | src/elements/elements.service.ts:214 | removing a superset of the attached ids leaves no link |
| TagLinks.WithoutDistinct | src/elements/element.entity.ts:47-52 | filtering links leaves no repeated link when every repeated id is dropped, so repeat-free links stay repeat-free |
| TagLinks.AppendFreshDistinct | src/elements/elements.service.ts:193-194 | repeat-free links followed by the fresh ids of a request that repeats none of them are still repeat-free |
| ReminderOrder.InsertByDate | src/reminders/reminders.service.ts:78 | inserting into a date-sorted sequence keeps it sorted and adds exactly that row |
| ReminderOrder.SortByDate | src/reminders/reminders.service.ts:78 | the selected rows come out sorted by date, each exactly once |
| Cascade.ProjectsOfUser | src/projects/project.entity.ts:19-21 | exactly the projects whose owner is the deleted user |
| Cascade.TagsOfUser | src/tags/tag.entity.ts:19-21 | exactly the tags whose owner is the deleted user |
| Cascade.ElementsOfUser | src/elements/element.entity.ts:24-26 | exactly the elements whose owner is the deleted user |
| Cascade.ListsOf | src/todo-lists/todo-list.entity.ts:24-26 | exactly the lists whose element is deleted |
| Cascade.NotesOf | src/notes/note.entity.ts:17-19 | exactly the notes whose element is deleted |
| Cascade.TasksOf | src/tasks/task.entity.ts:19-21 | exactly the tasks whose list is deleted |
| Cascade.RemindersOf | src/reminders/reminder.entity.ts:17-19 | exactly the reminders whose task is deleted |
| Cascade.NullProjects | src/elements/element.entity.ts:28-33 | SET NULL: every element survives; one that pointed at a deleted project loses only its project, every other element is unchanged |
| Cascade.DropTagLinks | src/elements/element.entity.ts:47-53 | every element survives with only the links to deleted tags removed, in order |
| Cascade.NullProjectsNothing | src/elements/element.entity.ts:28-33 | nulling references to no project changes nothing |
| Cascade.DropTagLinksNothing | src/elements/element.entity.ts:47-53 | dropping links to no tag changes nothing |
| Integrity.ProjectsAfterUserDelete | src/projects/project.entity.ts:19-21 | after the user's projects are cascaded away, no project refers to the deleted user |
| Integrity.TagsAfterUserDelete | src/tags/tag.entity.ts:19-21 | after the user's tags are cascaded away, no tag refers to the deleted user |
| Integrity.ElementsAfterUserDelete | src/elements/element.entity.ts:24-33 | cascading the user's elements, nulling its projects and unlinking its tags leaves every element's references valid |
| Integrity.ElementsAfterElementDelete | src/elements/elements.service.ts:162 | deleting one element leaves the others valid |
| Integrity.ElementsAfterProjectDelete | src/elements/element.entity.ts:28-33 | SET NULL leaves no element pointing at the deleted project |
| Integrity.ElementsAfterTagDelete | src/elements/element.entity.ts:47-53 | the join-table cascade leaves no link to the deleted tag |
| Integrity.ListsAfterDelete | src/todo-lists/todo-list.entity.ts:24-26 | lists of deleted elements go, the rest keep a valid element |
| Integrity.NotesAfterDelete | src/notes/note.entity.ts:17-19 | notes of deleted elements go, the rest keep a valid element |
| Integrity.TasksAfterDelete | src/tasks/task.entity.ts:19-21 | tasks of deleted lists go, the rest keep a valid list |
| Integrity.RemindersAfterDelete | src/reminders/reminder.entity.ts:17-19 | reminders of deleted tasks go, the rest keep a valid task and stay unique per task |
| Integrity.AfterUserDelete | src/elements/element.entity.ts:24-26 | the whole cascade of a user delete leaves every table consistent |
| Integrity.UnknownUserCascade | src/elements/element.entity.ts:24-26 | deleting a user that does not exist cascades to nothing |
| Integrity.RemindersAfterInsert | src/reminders/reminder.entity.ts:17-19 | a reminder for an existing task with no reminder keeps task_id unique |
| Integrity.RemindersAfterUpdate | src/reminders/reminder.entity.ts:17-19 | rewriting a reminder on the same task keeps the table consistent |
| Integrity.ElementsAfterLinkAdd | src/elements/element.entity.ts:47-53 | adding the fresh ids of a request for stored tags that repeats none of them keeps every element's references valid and its links repeat-free |
| Integrity.AfterLinkAdd | src/elements/element.entity.ts:47-53 | the same link addition keeps the whole schema consistent |
| Integrity.ElementsAfterLinkRemove | src/elements/element.entity.ts:47-53 | removing some links from an element keeps every element's references valid and its links repeat-free |
| Integrity.AfterLinkRemove | src/elements/element.entity.ts:47-53 | the same link removal keeps the whole schema consistent |
| Integrity.DependentsAfterDelete | src/todo-lists/todo-list.entity.ts:24-26 | deleting elements cascades through their lists, notes, tasks and reminders and leaves those four tables consistent |
| Integrity.UsersAfterInsert | src/users/user.entity.ts:6 | a user with an unused email keeps emails unique |
| Integrity.ElementsWiden | src/elements/element.entity.ts:24-33 | element references stay valid when the user and project tables only gain rows |
| Integrity.AfterUserInsert | src/users/user.entity.ts:6 | a user with an unused email keeps the whole schema consistent |
| Integrity.AfterProjectInsert | src/projects/project.entity.ts:19-21 | a project with no owner or a stored owner keeps the whole schema consistent |
| StoreModel.Store.InsertUser | src/users/user.entity.ts:6-35 | refused with Conflict iff the email is taken; otherwise stores the row with status defaulting to active and the nullable fields as given |
| StoreModel.Store.DeleteUser | src/elements/element.entity.ts:24-33 | removes the user, its projects, tags and elements and everything below them, nulls other elements' links to its projects and drops links to its tags; no row refers to the user afterwards; an unknown id changes nothing |
| StoreModel.Store.CreateElement | src/elements/elements.service.ts:29-57 | NotFound, writing nothing, iff the user is unknown or a truthy projectId is unknown; otherwise stores exactly the supplied title, date and user, with the project only when one was given, and no tags |
| StoreModel.Store.FindAllElementsByUser | src/elements/elements.service.ts:64-77 | NotFound iff the user is unknown; otherwise exactly the elements owned by the user |
| StoreModel.Store.FindAllElementsByProject | src/elements/elements.service.ts:84-97 | NotFound iff the project is unknown; otherwise exactly the elements of that project (`project.elements`) |
| StoreModel.Store.FindOneElement | src/elements/elements.service.ts:104-115 | the stored element, or NotFound iff the id is unknown |
| StoreModel.Store.UpdateElement | src/elements/elements.service.ts:123-148 | NotFound, writing nothing, iff the element or a truthy projectId is unknown; otherwise saves the overlay, re-pointed to the given project; an existing project is never cleared |
| StoreModel.Store.DeleteElement | src/elements/elements.service.ts:155-163 | NotFound, writing nothing, iff unknown; otherwise removes that element and exactly its lists, notes, their tasks and reminders |
| StoreModel.Store.AddTags | src/elements/elements.service.ts:171-195 | NotFound, writing nothing, iff the element or any requested tag is unknown; Conflict, writing nothing, iff a not-yet-linked id is requested twice; otherwise returns the old links followed by the request and stores the old links followed by the requested ids not linked yet |
| StoreModel.Store.RemoveTags | src/elements/elements.service.ts:203-216 | NotFound iff the element is unknown; otherwise the links become the old ones without the requested ids, in order |
| StoreModel.Store.CreateTag | src/tags/tags.service.ts:26-42 | NotFound, writing nothing, iff the user is unknown; otherwise stores the supplied name, color and owner |
| StoreModel.Store.FindAllTagsByUser | src/tags/tags.service.ts:49-62 | NotFound iff the user is unknown; otherwise exactly the user's tags |
| StoreModel.Store.FindOneTag | src/tags/tags.service.ts:69-80 | the stored tag, or NotFound iff the id is unknown |
| StoreModel.Store.UpdateTag | src/tags/tags.service.ts:88-96 | NotFound for an unknown id; otherwise exactly `MergeTag`, saved under the same key, or refused with nothing written |
| StoreModel.Store.DeleteTag | src/tags/tags.service.ts:103-111 | NotFound, writing nothing, iff unknown; otherwise removes the tag and every element's link to it |
| StoreModel.Store.FindElementsByTag | src/tags/tags.service.ts:118-129 | NotFound iff the tag is unknown; otherwise e is returned iff the tag is in e's links (`tag.elements`) |
| StoreModel.Store.CreateProject | src/projects/projects.service.ts:20-22 | never fails; stores `NewProject`, an owner-less row, under the new key |
| StoreModel.Store.FindAllProjects | src/projects/projects.service.ts:28-30 | every stored project of every user |
| StoreModel.Store.FindOneProject | src/projects/projects.service.ts:37-39 | the project, or null (not an error) iff the id is unknown |
| StoreModel.Store.UpdateProject | src/projects/projects.service.ts:47-49 | never NotFound; `MergeProject` for a stored id and `InsertedProject` for an unstored one, saved under the path id, or refused with nothing written |
| StoreModel.Store.DeleteProject | src/projects/projects.service.ts:56-58 | no error for an unknown id, which changes nothing; otherwise removes the project and nulls every element's reference to it |
| StoreModel.Store.CreateTodoList | src/todo-lists/todo-lists.service.ts:23-39 | NotFound, writing nothing, iff the element is unknown; otherwise exactly `NewTodoList`, saved under the new key, or refused with nothing written |
| StoreModel.Store.FindAllListsByElement | src/todo-lists/todo-lists.service.ts:46-59 | NotFound iff the element is unknown; otherwise exactly its lists |
| StoreModel.Store.FindOneList | src/todo-lists/todo-lists.service.ts:66-77 | the stored list, or NotFound iff the id is unknown |
| StoreModel.Store.UpdateTodoList | src/todo-lists/todo-lists.service.ts:85-93 | NotFound for an unknown id; otherwise exactly `MergeTodoList`, so the type never changes, saved under the same key or refused with nothing written |
| StoreModel.Store.DeleteTodoList | src/todo-lists/todo-lists.service.ts:100-108 | NotFound, writing nothing, iff unknown; otherwise removes the list, its tasks and their reminders |
| StoreModel.Store.CreateNote | src/notes/notes.service.ts:23-38 | NotFound, writing nothing, iff the element is unknown; otherwise stores the content linked to the element |
| StoreModel.Store.FindAllNotesByElement | src/notes/notes.service.ts:45-58 | NotFound iff the element is unknown; otherwise exactly its notes |
| StoreModel.Store.FindOneNote | src/notes/notes.service.ts:65-76 | the stored note, or NotFound iff the id is unknown |
| StoreModel.Store.UpdateNote | src/notes/notes.service.ts:84-92 | NotFound for an unknown id; otherwise exactly `MergeNote`, saved under the same key, or refused with nothing written |
| StoreModel.Store.DeleteNote | src/notes/notes.service.ts:99-107 | NotFound, writing nothing, iff unknown; otherwise removes only that note |
| StoreModel.Store.CreateTask | src/tasks/tasks.service.ts:23-38 | NotFound, writing nothing, iff the list is unknown; otherwise stores the description, not completed |
| StoreModel.Store.FindAllTasksByList | src/tasks/tasks.service.ts:45-58 | NotFound iff the list is unknown; otherwise exactly its tasks (`list.tasks`) |
| StoreModel.Store.FindOneTask | src/tasks/tasks.service.ts:65-76 | the stored task, or NotFound iff the id is unknown |
| StoreModel.Store.UpdateTask | src/tasks/tasks.service.ts:84-92 | NotFound for an unknown id; otherwise exactly `MergeTask`, saved under the same key, or refused with nothing written |
| StoreModel.Store.DeleteTask | src/tasks/tasks.service.ts:99-107 | NotFound, writing nothing, iff unknown; otherwise removes the task and its reminder |
| StoreModel.Store.ToggleComplete | src/tasks/tasks.service.ts:114-123 | NotFound, writing nothing, iff unknown; otherwise stores the task with `completed` negated and nothing else changed |
| StoreModel.AddTagsTwice | src/elements/elements.service.ts:171-195 | repeating a successful addTags with the same ids succeeds and leaves the stored links as the first call left them |
| StoreModel.ToggleTwiceRestores | src/tasks/tasks.service.ts:114-123 | two toggles of a stored task leave the tasks table as it was |
| StoreModel.Store.CreateReminder | src/reminders/reminders.service.ts:23-38 | NotFound iff the task is unknown, Conflict iff it already has a reminder, writing nothing in both cases; otherwise date is the supplied reminderDate and notified is false |
| StoreModel.Store.FindAllRemindersByTask | src/reminders/reminders.service.ts:45-58 | NotFound iff the task is unknown; otherwise exactly that task's reminders |
| StoreModel.Store.RemindersByTaskAtMostOne | src/tasks/task.entity.ts:29-33 | a task has at most one reminder |
| StoreModel.Store.AtMostOneReminder | src/reminders/reminder.entity.ts:17-19 | the unique task_id admits at most one reminder per task |
| StoreModel.Store.FindOneReminder | src/reminders/reminders.service.ts:87-98 | the stored reminder, or NotFound iff the id is unknown |
| StoreModel.Store.UpdateReminder | src/reminders/reminders.service.ts:106-113 | NotFound for an unknown id; otherwise exactly `MergeReminder`, so only `notified` can change and the date and task never do, saved under the same key or refused with nothing written |
| StoreModel.Store.DeleteReminder | src/reminders/reminders.service.ts:120-128 | NotFound, writing nothing, iff unknown; otherwise removes only that reminder |
| StoreModel.Store.OwnerOf | src/reminders/reminders.service.ts:68-72 | the owner at the end of the reminder→task→list→element chain, present iff every link joins |
| StoreModel.Store.DueRows | src/reminders/reminders.service.ts:73-77 | exactly the stored reminders of the user inside the inclusive window and not notified |
| StoreModel.Store.FindAllRemindersByDateRange | src/reminders/reminders.service.ts:67-80 | sorted by date and holding every qualifying reminder exactly once; each result is in the window and not notified; empty for an unknown user |
| StoreModel.Store.NothingDueForUnknownUser | src/reminders/reminders.service.ts:72-73 | no reminder qualifies for a user that does not exist |
| Permissions.Value | src/shared/permissions.ts:2-24 | the numeric value of each flag, zero only for WITHOUT_PERMISSIONS |
| Permissions.FlagsAreDistinctBits | src/shared/permissions.ts:4-24 | every non-zero flag is 2^k for its own k in 0..20, so two flags never overlap |
| Permissions.WithoutPermissionsNeverPasses | src/shared/permissions.ts:3 | WITHOUT_PERMISSIONS never passes as permission or as mask |
| Permissions.CheckMatchesSharesFlag | src/shared/permissions.ts:27 | with the sign bit clear on either side, the check is exactly "shares a flag" |
| Permissions.CheckSingleFlag | src/shared/permissions.ts:27 | for a defined flag, the check holds iff that flag's bit is set in the permission |
| Permissions.CheckSymmetric | src/shared/permissions.ts:27 | the check is symmetric in its two arguments |
| Permissions.CheckNotMonotone | src/shared/permissions.ts:27 | as written, adding the sign bit revokes a flag already granted, and -1 fails against -1 |
| Permissions.SharesFlagSymmetric | src/shared/permissions.ts:27 | sharing a flag is symmetric |
| Permissions.SharesFlagMonotone | src/shared/permissions.ts:27 | adding permissions never revokes a shared flag |
| Permissions.SharesFlagUnion | src/shared/permissions.ts:27 | sharing a flag with a union of masks is sharing with one of them |
| Parsers.ParseBoolean | src/shared/utils/parsers.ts:1-4 | false for falsy input; true iff the input is the string 'true', the number 1 or true |
| Parsers.ParseBooleanRejectsLookalikes | src/shared/utils/parsers.ts:3 | 'false', '1', 'TRUE', 2 and the falsy inputs give false |
| Parsers.ParseNumber | src/shared/utils/parsers.ts:6-9 | 0 for falsy input, the number for a non-zero number, 1 for true; a non-empty string is handed to string conversion |
| AuthGuard.Split | src/auth/auth.guard.ts:40 | at least one piece and no piece contains a space |
| AuthGuard.JoinSplit | src/auth/auth.guard.ts:40 | joining the pieces with single spaces gives the cookie back |
| AuthGuard.SplitWord | src/auth/auth.guard.ts:40 | a space-free word then a space splits into that word and the pieces of the rest |
| AuthGuard.ExtractToken | src/auth/auth.guard.ts:39-42 | a missing cookie gives no token, and a token never contains a space |
| AuthGuard.ExtractTokenSound | src/auth/auth.guard.ts:39-42 | a token is read only from `Bearer <token>`, possibly followed by a space and more |
| AuthGuard.BearerYieldsToken | src/auth/auth.guard.ts:41 | `Bearer <token>` gives the token |
| AuthGuard.BearerIgnoresTrailingPieces | src/auth/auth.guard.ts:40 | pieces after the second are ignored |
| AuthGuard.OtherSchemeYieldsNothing | src/auth/auth.guard.ts:41 | any first piece other than exactly `Bearer`, `bearer` included, gives no token |
| AuthGuard.BareBearerYieldsNothing | src/auth/auth.guard.ts:40-41 | a bare `Bearer` gives no token |
| AuthGuard.CanActivate | src/auth/auth.guard.ts:20-23 | a missing or empty token is refused before verification; any other token goes to verification unchanged |
| AuthGuard.EmptyBearerRefused | src/auth/auth.guard.ts:21-23 | `Bearer ` with nothing after it is refused |
| AuthGuard.BearerReachesVerification | src/auth/auth.guard.ts:20-25 | `Bearer <token>` with a non-empty token reaches verification with that token |
| JsValues.JsValue.Get | src/shared/interceptors/transform.interceptor.ts:16 | an object's own key, and undefined for anything else |
| TransformInterceptor.Envelope | src/shared/interceptors/transform.interceptor.ts:15-22 | always a `data` key; a `meta` key iff meta is truthy; data is `value.data` with meta and the value itself without |
| TransformInterceptor.EnvelopeOfPlainValue | src/shared/interceptors/transform.interceptor.ts:16-19 | null, undefined and primitives become the data, without failing |
| TransformInterceptor.EnvelopeOfPageIsFixed | src/shared/interceptors/transform.interceptor.ts:19-20 | enveloping a page's envelope again gives it back |
| TransformInterceptor.EnvelopeWithoutMetaNests | src/shared/interceptors/transform.interceptor.ts:19 | without meta, enveloping an envelope nests it as data |
| UserResponse.Projection | src/users/dto/create-user-response.dto.ts:27-31 | a key is in the output iff it is listed and present on the user, with the user's value |
| UserResponse.SecretsNotListed | src/users/dto/create-user-response.dto.ts:3-15 | neither password nor status is a listed field |
| UserResponse.FilterFields | src/users/dto/create-user-response.dto.ts:25-33 | the loop over the listed fields builds exactly the projection |
| UserResponse.ProjectionIdempotent | src/users/dto/create-user-response.dto.ts:27-31 | projecting a projection changes nothing |
| UserResponse.CreateUserResponseDto.constructor | src/users/dto/create-user-response.dto.ts:20-22 | the response object holds the given user |
| UserResponse.CreateUserResponseDto.ReturnCreateUserResponse | src/users/dto/create-user-response.dto.ts:24-34 | the projection of the user on the listed fields, never holding password or status |
| UserResponse.SignInResponseDto.constructor | src/auth/dto/sign-in-response.dto.ts:20-22 | the response object holds the given user |
| UserResponse.SignInResponseDto.ReturnSignInResponse | src/auth/dto/sign-in-response.dto.ts:24-34 | the projection of the user on the listed fields, never holding password or status |

## Left out

- Timestamps (`createdAt`/`updatedAt` on every table) are left out: they come from the database clock.
- The reminder `date` column is a `varchar(100)` compared as text. The model uses an abstract integer key with its order, and does not model the length limit.
- Dates of elements are abstract integers. Parsing `new Date(...)` and the controller's default reminder window depend on a clock and a date library.
- Generated uuids are not modelled. New keys are parameters that must be unused.
- Controllers and the HTTP layer are left out, and so is every ownership check, which the code does not perform either. Of the validation pipe the model keeps only what it lets through to the services; a body it rejects (a declared key of the wrong type) never reaches them.
- A body with an undeclared key is refused by the global validation pipe before any service runs. The payload types therefore hold only declared keys, and that refusal is not modelled.
- The entity's default list type is never used: creating a list requires `type`.
- Keys and emails are compared exactly. The storage's collation (MySQL's default is case-insensitive, so the unique email index would also refuse `Ann@x.com` next to `ann@x.com`) is not modelled.
- The element queries `findElements`, `searchElements` and `getElementsByUserAndYear` are not part of this model: the service has no bodies for them.
- StoreModel.Store.AddTags: the stored links are a sequence, the old links followed by the newly inserted ids. The join table itself has no order.
- Dtos.UpdateTagDto, Dtos.UpdateTaskDto, Dtos.CreateProjectDto, Dtos.UpdateProjectDto: the source files of these payload classes and their validation decorators are not part of this model. Their declared keys are taken to be the entity's own columns (tag: name and color; task: description and completed; project: name, color and icon), each optional in an update. CreateProjectDto is taken to require a name and to allow color and icon.
- Password hashing, JWT signing and verification (`canActivate` after the no-token branch), file upload, email and bootstrap are left out as foreign libraries or I/O.
- Parsers.ParseNumber: `Number()` on a non-empty string is floating-point parsing. The model returns the string untouched and does not model the result.
- Numbers are integers throughout. Fractional numbers, infinities and ToInt32 truncation of non-integral operands of `&` are not modelled.
- Parsers.ParseNumber requires an input of the declared parameter type. It does not model null or objects, which the type excludes.
- StoreModel.Store.DeleteUser models the storage's cascade for a deleted `users` row. No service in this core deletes users.
- StoreModel.Store.InsertUser models the storage's insert of a `users` row with its constraints. The registration flow around it (hashing, email) is not part of this model.

## Findings

| source | as written | input that shows it | evidently intended | confidence | as-written member | corrected member |
|---|---|---|---|---|---|---|
| src/shared/permissions.ts:27 | `(permission & mask) > 0` compares the signed 32-bit result, so a shared flag in bit 31 makes the result negative and the check fails | permission 1, mask 0x80000001 passes, but permission 1 \| 0x80000000 with the same mask fails; permission -1 with mask -1 fails | the operands share at least one flag: `(permission & mask) != 0`, which is monotone in the permission | not executed; only operands with bit 31 set are affected, and no defined flag uses it | Permissions.CheckNotMonotone | Permissions.SharesFlagMonotone |
