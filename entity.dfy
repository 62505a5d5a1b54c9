/**
 * The two Doctrine entities: `User` (src/Entity/User.php) and `Task`.
 * `Task` is a stub: its class file is not part of this model, so only the
 * accessors the rest of the code calls are given, each a plain field
 * assignment or read.
 */
module Entity {
  import opened Wrappers
  import opened SeqUtil

  /** The role every user holds whatever was stored. */
  const USER_ROLE := "ROLE_USER"

  class Task {
    var title: string
    var content: string
    var isDone: bool
    var user: User?

    constructor ()
      ensures title == "" && content == "" && !isDone && user == null
    {
      title, content, isDone, user := "", "", false, null;
    }

    function GetUser(): (owner: User?)
      reads this
    {
      user
    }

    method SetUser(u: User?)
      modifies this
      ensures GetUser() == u
      ensures unchanged(this`title, this`content, this`isDone)
    {
      user := u;
    }

    method SetTitle(t: string)
      modifies this
      ensures title == t
      ensures unchanged(this`content, this`isDone, this`user)
    {
      title := t;
    }

    method SetContent(c: string)
      modifies this
      ensures content == c
      ensures unchanged(this`title, this`isDone, this`user)
    {
      content := c;
    }

    /** `toggle($flag)`: the completion flag becomes `flag`. */
    method Toggle(flag: bool)
      modifies this
      ensures isDone == flag
      ensures unchanged(this`title, this`content, this`user)
    {
      isDone := flag;
    }
  }

  class User {
    var username: Option<string>
    var password: Option<string>
    var email: Option<string>
    var roles: seq<string>
    var tasks: seq<Task>

    constructor ()
      ensures username == None && password == None && email == None
      ensures roles == [] && tasks == []
    {
      username, password, email := None, None, None;
      roles, tasks := [], [];
    }

    /** No task is held twice in the collection. */
    predicate DistinctTasks()
      reads this
    {
      NoDuplicates(tasks)
    }

    function GetUsername(): (name: Option<string>)
      reads this
    {
      username
    }

    /** The security identifier; a user whose username was never set has none (PHP raises a TypeError). */
    function GetUserIdentifier(): (id: string)
      reads this
      requires username.Some?
      ensures Some(id) == GetUsername()
    {
      username.value
    }

    method SetUsername(name: string)
      modifies this
      ensures GetUsername() == Some(name) && GetUserIdentifier() == name
      ensures unchanged(this`password, this`email, this`roles, this`tasks)
    {
      username := Some(name);
    }

    function GetSalt(): (salt: Option<string>) {
      None
    }

    function GetPassword(): (hash: Option<string>)
      reads this
    {
      password
    }

    method SetPassword(p: string)
      modifies this
      ensures GetPassword() == Some(p)
      ensures unchanged(this`username, this`email, this`roles, this`tasks)
    {
      password := Some(p);
    }

    function GetEmail(): (address: Option<string>)
      reads this
    {
      email
    }

    method SetEmail(e: string)
      modifies this
      ensures GetEmail() == Some(e)
      ensures unchanged(this`username, this`password, this`roles, this`tasks)
    {
      email := Some(e);
    }

    method EraseCredentials() {
    }

    /**
     * The stored roles with `ROLE_USER` appended, duplicates removed
     * (first occurrence kept). Works on a copy: `roles` is left as it is.
     */
    function GetRoles(): (r: seq<string>)
      reads this
      ensures USER_ROLE in r
      ensures forall i :: 0 <= i < |roles| ==> roles[i] in r
      ensures forall i :: 0 <= i < |r| ==> r[i] in roles || r[i] == USER_ROLE
      ensures NoDuplicates(r)
      ensures Dedup(roles) <= r
      ensures NoDuplicates(roles) ==> r == if USER_ROLE in roles then roles else roles + [USER_ROLE]
    {
      DedupPrefix(roles, [USER_ROLE]);
      DedupFixesDistinct(roles);
      DedupFixesDistinct(roles + [USER_ROLE]);
      Dedup(roles + [USER_ROLE])
    }

    method SetRoles(newRoles: seq<string>) returns (self: User)
      modifies this
      ensures self == this && roles == newRoles
      ensures unchanged(this`username, this`password, this`email, this`tasks)
    {
      roles := newRoles;
      self := this;
    }

    /**
     * Adds `task` unless it is already in the collection, and then makes
     * this user its owner. A task already present is left alone, owner included.
     */
    method AddTask(task: Task) returns (self: User)
      modifies this, task
      ensures self == this
      ensures task in old(tasks) ==> tasks == old(tasks) && task.user == old(task.user)
      ensures task !in old(tasks) ==> tasks == old(tasks) + [task] && task.user == this
      ensures multiset(tasks)[task] == if task in old(tasks) then old(multiset(tasks)[task]) else 1
      ensures old(DistinctTasks()) ==> DistinctTasks()
      ensures unchanged(this`username, this`password, this`email, this`roles)
      ensures unchanged(task`title, task`content, task`isDone)
    {
      if task !in tasks {
        tasks := tasks + [task];
        task.SetUser(this);
      }
      self := this;
    }

    /**
     * Removes `task` from the collection if it is there, and then clears its
     * owner only if the owner is still this user. An absent task changes nothing.
     */
    method RemoveTask(task: Task) returns (self: User)
      modifies this, task
      ensures self == this
      ensures tasks == RemoveFirst(old(tasks), task)
      ensures task.user == if task in old(tasks) && old(task.user) == this then null else old(task.user)
      ensures task !in old(tasks) ==> tasks == old(tasks)
      ensures old(DistinctTasks()) ==> task !in tasks && DistinctTasks()
      ensures unchanged(this`username, this`password, this`email, this`roles)
      ensures unchanged(task`title, task`content, task`isDone)
    {
      var removed := task in tasks;
      tasks := RemoveFirst(tasks, task);
      if removed {
        if task.GetUser() == this {
          task.SetUser(null);
        }
      }
      self := this;
    }
  }

  /** Adding a task twice has the effect of adding it once. */
  method AddTaskTwice(u: User, task: Task)
    modifies u, task
    ensures u.tasks == if task in old(u.tasks) then old(u.tasks) else old(u.tasks) + [task]
    ensures task.user == if task in old(u.tasks) then old(task.user) else u
  {
    var first := u.AddTask(task);
    var second := u.AddTask(task);
  }

  /** On a user that does not hold `task`, adding then removing it restores the collection and leaves the task ownerless. */
  method AddThenRemoveTask(u: User, task: Task)
    requires task !in u.tasks
    modifies u, task
    ensures u.tasks == old(u.tasks)
    ensures task.user == null
  {
    var added := u.AddTask(task);
    var removed := u.RemoveTask(task);
    RemoveFirstUndoesAppend(old(u.tasks), task);
  }
}
