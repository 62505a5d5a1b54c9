/**
 * TaskController (src/Controller/TaskController.php): what its actions do to
 * the task store and to the tasks. The entity manager's store is the set of
 * persisted tasks; routing, forms, flash messages and redirects are reduced
 * to the outcome each action reports.
 */
module Controller {
  import opened Wrappers
  import opened Entity
  import opened Voter

  /** Why a delete request was turned away with an error flash. */
  datatype Refusal = AdminRequired | NotOwner

  /** `AccessDenied` is the exception thrown to an unauthenticated caller. */
  datatype DeleteOutcome = AccessDenied | Refused(reason: Refusal) | Deleted

  datatype CreateOutcome = CreateDenied | FormShown | Created(task: Task)

  class TaskController {
    /** The tasks the entity manager holds. */
    var store: set<Task>

    constructor (persisted: set<Task>)
      ensures store == persisted
    {
      store := persisted;
    }

    /** `listCompleted`: the stored tasks marked done, and no others. */
    function ListCompleted(): (r: set<Task>)
      reads this, store
      ensures r <= store
      ensures forall t :: t in store ==> (t in r <==> t.isDone)
    {
      set t | t in store && t.isDone
    }

    /**
     * `create`: refused to an unauthenticated caller; otherwise, once the form
     * is submitted and valid with `title` and `content`, a new task owned by the caller
     * is persisted. The caller's own `tasks` collection is not touched.
     */
    method Create(actor: User?, title: string, content: string, formValid: bool) returns (r: CreateOutcome)
      modifies this
      ensures actor == null ==> r == CreateDenied
      ensures actor != null && !formValid ==> r == FormShown
      ensures actor != null && formValid ==> r.Created?
      ensures r.Created? ==> fresh(r.task) && r.task !in old(store)
      ensures r.Created? ==> r.task.user == actor && r.task.title == title && r.task.content == content && !r.task.isDone
      ensures store == if r.Created? then old(store) + {r.task} else old(store)
      ensures actor != null ==> unchanged(actor)
    {
      if actor == null {
        return CreateDenied;
      }
      if !formValid {
        return FormShown;
      }
      var task := new Task();
      task.SetTitle(title);
      task.SetContent(content);
      task.SetUser(actor);
      store := store + {task};
      r := Created(task);
    }

    /**
     * `toggleTask`: flips the completion flag, with no ownership check; a
     * stored task thereby enters or leaves the completed list.
     */
    method ToggleTask(task: Task)
      modifies task
      ensures task.isDone == !old(task.isDone)
      ensures unchanged(task`title, task`content, task`user)
      ensures task in store ==> (task in ListCompleted() <==> task !in old(ListCompleted()))
    {
      task.Toggle(!task.isDone);
    }

    /**
     * `deleteTask`, with the controller's own copy of the rule: the task is
     * removed from the store exactly when the voter grants `TASK_DELETE`;
     * otherwise the store is untouched.
     */
    method DeleteTask(actor: User?, task: Task) returns (r: DeleteOutcome)
      modifies this
      ensures r == AccessDenied <==> actor == null
      ensures r == Refused(AdminRequired) <==> actor != null && OwnedByAnonymous(task) && !IsAdmin(actor)
      ensures r == Refused(NotOwner) <==> actor != null && !OwnedByAnonymous(task) && task.user != actor
      ensures r == Deleted <==> VoteOnAttribute(DELETE, task, actor)
      ensures store == if r == Deleted then old(store) - {task} else old(store)
    {
      if actor == null {
        return AccessDenied;
      }
      var owner := task.GetUser();
      if owner != null && owner.GetUsername() == Some(ANONYMOUS) {
        if ADMIN_ROLE !in actor.GetRoles() {
          return Refused(AdminRequired);
        }
      } else {
        if owner != actor {
          return Refused(NotOwner);
        }
      }
      store := store - {task};
      r := Deleted;
    }
  }

  /** Toggling the same task twice restores its completion flag. */
  method ToggleTwice(c: TaskController, task: Task)
    modifies task
    ensures task.isDone == old(task.isDone)
    ensures unchanged(task`title, task`content, task`user)
  {
    c.ToggleTask(task);
    c.ToggleTask(task);
  }

  /** A seeded task of the shared `anonyme` user, as the data fixtures create them. */
  method SeedAnonymousTask() returns (task: Task)
    ensures OwnedByAnonymous(task)
  {
    var anonymous := new User();
    anonymous.SetUsername(ANONYMOUS);
    task := new Task();
    task.SetUser(anonymous);
  }

  /** A user with no stored roles holds only `ROLE_USER`, and so is no administrator. */
  method NewRegularUser() returns (regular: User)
    ensures regular.GetRoles() == [USER_ROLE]
    ensures !IsAdmin(regular)
  {
    regular := new User();
    assert regular.roles == [];
  }

  /** A user given `ROLE_ADMIN` holds it next to `ROLE_USER`. */
  method NewAdminUser() returns (admin: User)
    ensures admin.GetRoles() == [ADMIN_ROLE, USER_ROLE]
    ensures IsAdmin(admin)
  {
    admin := new User();
    var self := admin.SetRoles([ADMIN_ROLE]);
    assert [ADMIN_ROLE] + [USER_ROLE] == [ADMIN_ROLE, USER_ROLE];
  }

  /**
   * On a task of the `anonyme` user, a regular user's delete is refused and
   * leaves the task stored; an administrator's delete removes it.
   */
  method AnonymousTaskScenario() returns (byRegular: DeleteOutcome, byAdmin: DeleteOutcome, storedAfter: bool)
    ensures byRegular == Refused(AdminRequired)
    ensures byAdmin == Deleted
    ensures !storedAfter
  {
    var task := SeedAnonymousTask();
    var regular := NewRegularUser();
    var admin := NewAdminUser();
    var c := new TaskController({task});
    byRegular := c.DeleteTask(regular, task);
    assert task in c.store && OwnedByAnonymous(task) && IsAdmin(admin);
    byAdmin := c.DeleteTask(admin, task);
    storedAfter := task in c.store;
  }

  /**
   * A user creates a task, owns it, can delete it; another user cannot, and
   * nobody can delete a task that has no owner.
   */
  method OwnerScenario() returns (byOther: DeleteOutcome, byOwner: DeleteOutcome, orphan: DeleteOutcome)
    ensures byOther == Refused(NotOwner)
    ensures byOwner == Deleted
    ensures orphan == Refused(NotOwner)
  {
    var owner := new User();
    owner.SetUsername("owner");
    var other := new User();
    other.SetUsername("other");
    var c := new TaskController({});
    var created := c.Create(owner, "title", "content", true);
    var task := created.task;
    byOther := c.DeleteTask(other, task);
    byOwner := c.DeleteTask(owner, task);
    var lonely := new Task();
    orphan := c.DeleteTask(owner, lonely);
  }
}
