# ToDoAndCo task manager: deletion policy, user entity and task actions

This project models the core of the ToDoAndCo Symfony application in Dafny:

- **`Entity`** (src/Entity/User.php): the `User` entity as a class. Its
  username, password, email, stored roles and `tasks` collection are fields
  that the setters, `AddTask` and `RemoveTask` update in place. `GetRoles`
  returns the effective roles. `Task` is a stub class with `title`,
  `content`, `isDone` and `user`, giving only the accessors the core calls.
- **`Voter`** (src/Security/Voter/TaskVoter.php): the `TASK_DELETE` policy as
  pure functions. An unauthenticated actor is always denied. A task owned by
  the user named `anonyme` may be deleted only by a holder of `ROLE_ADMIN`.
  Any other task may be deleted only by the very object that owns it, so a
  task with no owner can never be deleted.
- **`Controller`** (src/Controller/TaskController.php): class
  `TaskController`, whose `store` is the set of persisted tasks.
  `DeleteTask` carries the controller's own inline copy of the policy, and
  its contract proves that copy agrees with the voter. `Create` makes the
  caller the owner of the new task. `ToggleTask` flips the completion flag.
  `ListCompleted` selects the finished tasks. Two scenario methods follow
  the seeded data of the fixtures (src/DataFixtures/AppFixtures.php:26-48).
- **`SeqUtil`**: the library behaviour these files rely on.
  `Dedup` is PHP's `array_unique` on a list. `array_unique` compares the
  string forms of its elements; roles are strings here, so that comparison
  is plain string equality. `RemoveFirst` is Doctrine's
  `ArrayCollection::removeElement`, and `IndexOf` is the strict
  `array_search` inside it. `ArrayCollection::contains` is Dafny's `in` on
  the `tasks` sequence. These collection operations compare with `===`,
  which on objects is reference equality.

Choices made where the program depends on something outside the model:

- The actor is a `User?`: `null` stands for "not fully authenticated".
- "Administrator" means `"ROLE_ADMIN"` appears in the actor's `GetRoles()`.
  There is no role hierarchy.
- PHP `===` on objects is Dafny reference equality.
- The fields `username`, `email` and `password` start as PHP `null`, so
  they are `Option<string>`.
- Whether the create form was submitted and is valid is a boolean
  parameter, and the title and content it binds are parameters too.

Behaviour of the code worth stating explicitly:

- The admin role checked is the literal `ROLE_ADMIN`.
- `deleteTask` leaves the owner's `tasks` collection as it was.
- `create` sets the new task's owner but does not add the task to the
  owner's collection, so `Create` states that the actor is unchanged. The
  owner/tasks association is therefore not an invariant of the model.
- `toggleTask` performs no authentication or ownership check.
- A refused delete redirects with an error flash and reports no HTTP 403,
  although one controller test expects a 403 (tests/Controller/TaskCOntrollerTest.php:123-128).
  The model reports `Refused`, and the store is left unchanged.

## Model

| member | source | states |
|---|---|---|
| `SeqUtil.Dedup` | src/Entity/User.php:99 | `array_unique`: every element of the input is in the result and vice versa, and the result has no duplicates and is no longer than the input |
| `SeqUtil.DedupFixesDistinct` | src/Entity/User.php:99 | a list comes back unchanged from `array_unique` if and only if it has no duplicates |
| `SeqUtil.DedupPrefix` | src/Entity/User.php:95-99 | appending elements keeps the order of what was kept before: `Dedup(a)` is a prefix of `Dedup(a + b)` (first occurrence kept) |
| `SeqUtil.IndexOf` | src/Entity/User.php:133 | the position `removeElement` searches for is the first occurrence of the element, or the length when the element is absent |
| `SeqUtil.RemoveFirst` | src/Entity/User.php:133 | `removeElement` leaves a list without the element unchanged; otherwise it removes exactly the first occurrence, and every other element keeps its relative order (the result is one shorter, and position `k` holds the input's element `k` before the cut and `k + 1` after it); multiset difference; on a list without duplicates the element is then absent and there are still no duplicates |
| `SeqUtil.RemoveFirstUndoesAppend` | src/Entity/User.php:121-141 | adding an absent element at the end and then removing it gives back the original list |
| `Entity.Task.constructor` | tests/Entity/TaskTest.php:16-19 | a new task is not done, has no owner, and has empty title and content |
| `Entity.Task.SetUser` | tests/Entity/TaskTest.php:80-85 | `GetUser()` then returns exactly the user that was set (or null), and title, content and completion flag are unchanged |
| `Entity.Task.SetTitle` | tests/Entity/TaskTest.php:36-40 | the title becomes the given string (the empty string included), and nothing else changes |
| `Entity.Task.SetContent` | tests/Entity/TaskTest.php:45-49 | the content becomes the given string, and nothing else changes |
| `Entity.Task.Toggle` | tests/Entity/TaskTest.php:54-61 | the completion flag becomes the argument, and nothing else changes |
| `Entity.User.constructor` | src/Entity/User.php:21-46 | a new user has no username, password or email, no stored roles and an empty task collection |
| `Entity.User.GetUserIdentifier` | src/Entity/User.php:53-56 | the security identifier is the username |
| `Entity.User.SetUsername` | src/Entity/User.php:58-66 | round trip: `GetUsername()` and `GetUserIdentifier()` then give the new name, and no other field changes |
| `Entity.User.SetPassword` | src/Entity/User.php:73-81 | round trip: `GetPassword()` then gives the value set, and no other field changes |
| `Entity.User.SetEmail` | src/Entity/User.php:83-91 | round trip: `GetEmail()` then gives the value set, and no other field changes |
| `Entity.User.GetRoles` | src/Entity/User.php:93-100 | `ROLE_USER` is always present; every stored role is present and nothing else; no duplicates; the stored roles' own deduplication comes first in order; on duplicate-free stored roles the result is those roles, with `ROLE_USER` appended only if absent (so `['ROLE_USER']` gives `['ROLE_USER']`); being a function, it leaves `roles` untouched |
| `Entity.User.SetRoles` | src/Entity/User.php:102-107 | the stored roles become exactly the argument, the same user is returned, and no other field changes |
| `Entity.User.AddTask` | src/Entity/User.php:121-129 | on an absent task: it is appended, occurs exactly once, and is owned by this user; on a present task: the collection and the task's owner are unchanged; a duplicate-free collection stays duplicate-free; no other field of the user or the task changes; returns this user |
| `Entity.User.RemoveTask` | src/Entity/User.php:131-141 | the first occurrence of the task is removed and nothing else; the owner is cleared only when the task was present and owned by this user; an absent task changes nothing; on a duplicate-free collection the task is gone afterwards; returns this user |
| `Entity.AddTaskTwice` | src/Entity/User.php:121-129 | idempotence: two `AddTask` calls leave the same collection and owner as one |
| `Entity.AddThenRemoveTask` | src/Entity/User.php:121-141 | round trip: on a user without the task, `AddTask` then `RemoveTask` restores the collection and leaves the task with no owner |
| `Voter.Supports` | src/Security/Voter/TaskVoter.php:21-27 | the voter applies exactly when the attribute is `TASK_DELETE` and the subject is a task |
| `Voter.VoteOnAttribute` | src/Security/Voter/TaskVoter.php:29-52 | an unauthenticated actor, any other attribute, or a task without an owner gets a denial; on an `anonyme`-owned task the vote equals "actor holds `ROLE_ADMIN`"; on any other task it equals "actor is the very owner", whatever the actor's roles; a grant implies the actor is the owner or an admin |
| `Controller.TaskController.constructor` | src/Controller/TaskController.php:28-32 | the controller works on the given store of persisted tasks |
| `Controller.TaskController.ListCompleted` | src/Controller/TaskController.php:54-61 | the result is drawn from the store, and a stored task is in it exactly when it is done |
| `Controller.TaskController.Create` | src/Controller/TaskController.php:70-93 | an unauthenticated caller is refused and the store is unchanged; without a submitted, valid form nothing is stored; otherwise a fresh task with the submitted title and content, not done and owned by the caller, is added to the store and nothing else is; the caller's own task collection is not touched |
| `Controller.TaskController.ToggleTask` | src/Controller/TaskController.php:133-141 | the completion flag is negated with no ownership check, and nothing else of the task changes; a stored task enters or leaves the completed list accordingly |
| `Controller.TaskController.DeleteTask` | src/Controller/TaskController.php:150-181 | access is denied exactly to the unauthenticated caller; the admin-only refusal happens exactly on `anonyme`-owned tasks for non-admins; the not-owner refusal happens exactly on other tasks for a caller who is not the owner; the task is deleted exactly when `Voter.VoteOnAttribute(TASK_DELETE, …)` grants, so the two copies of the rule agree; the store then loses exactly that task and is otherwise unchanged |
| `Controller.ToggleTwice` | src/Controller/TaskController.php:133-136 | two toggles restore the original completion flag |
| `Controller.SeedAnonymousTask` | src/DataFixtures/AppFixtures.php:26-48 | a seeded task is owned by a user whose username is exactly `anonyme` |
| `Controller.NewRegularUser` | src/Entity/User.php:93-100 | a user with no stored roles has exactly `['ROLE_USER']` as effective roles and is no administrator |
| `Controller.NewAdminUser` | src/Entity/User.php:93-107 | a user whose roles are set to `['ROLE_ADMIN']` has `['ROLE_ADMIN', 'ROLE_USER']` as effective roles and is an administrator |
| `Controller.AnonymousTaskScenario` | src/Controller/TaskController.php:160-165 | on an `anonyme` task a regular user is refused with "admin required", and then an administrator deletes it from the store |
| `Controller.OwnerScenario` | src/Controller/TaskController.php:166-176 | a created task is refused to another user and deleted for its creator; a task with no owner is refused to that same creator (the general fact, refusal to every actor, is `Voter.VoteOnAttribute`'s ensures on an ownerless task together with `DeleteTask`'s contract) |

The getters `GetUser`, `GetUsername`, `GetPassword`, `GetEmail`, the
`GetSalt` function (always null, src/Entity/User.php:68-71) and the empty
`EraseCredentials` method (src/Entity/User.php:109-111) are modelled but
have no contract of their own. The setters' round trips above state what
the getters return. The voter's `IsAdmin` and `OwnedByAnonymous` and the
user's `DistinctTasks` are helper predicates.

## Left out

- HTTP routing, form rendering and validation, templates, flash texts and redirects. Each action reports only an outcome: denied, refused with a reason, form shown, created or deleted.
- `list` (src/Controller/TaskController.php:41-46): it renders every stored task and makes no decision.
- `edit` (src/Controller/TaskController.php:103-124): the form component, which is not part of this model, writes title and content. The action makes no authentication or ownership decision.
- Doctrine persistence. `persist`/`flush`/`remove` become set updates of `store`, and `findBy` becomes a set comprehension. `TaskRepository::findLastTask` and the id values the database assigns (`getId`) are not modelled.
- `getTasks` returns the live collection, so callers can alias it. The model exposes the `tasks` field, and aliasing through other code is not captured.
- PHP `array_unique` keeps the original array keys, which can leave gaps. The model returns the values as a list in key order.
- `ArrayCollection::removeElement` uses `unset`, so the `tasks` collection can have a gap in its keys afterwards. The model keeps the remaining tasks as a list in key order.
- Entity.User.GetUserIdentifier: requires a username that was set. PHP raises a TypeError when `getUserIdentifier(): string` returns the null username of a user whose `setUsername` was never called (src/Entity/User.php:53-56). The model does not represent that error.
- `src/Entity/Task.php` is not part of this model. The `Task` stub's defaults (empty title and content, not done, no owner) are assumed. Its creation timestamp is not modelled, because it comes from the clock.
- Password hashing, `UserController` (form handling, hashing, and admin gating by attribute), the validation constraints on `User`, and the random data of the fixtures.
- The role hierarchy and the remember-me distinction behind `IS_AUTHENTICATED_FULLY` are left out, because the security configuration is not part of this model. Authentication is `actor != null`, and admin rights are flat membership of `ROLE_ADMIN`.
- Symfony's `Voter::vote` (abstain or grant/deny around `supports`) is framework code and is not modelled.
