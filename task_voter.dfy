/**
 * TaskVoter (src/Security/Voter/TaskVoter.php): the `TASK_DELETE` policy as
 * pure functions of the attribute, the task and the authenticated user.
 * The voter's `isGranted('ROLE_ADMIN')` asks about the token's user, which
 * is the actor here; roles form no hierarchy.
 */
module Voter {
  import opened Wrappers
  import opened Entity

  const DELETE := "TASK_DELETE"
  const ANONYMOUS := "anonyme"
  const ADMIN_ROLE := "ROLE_ADMIN"

  /** What the voter may be asked about: a task or any other value. */
  datatype Subject = TaskSubject(task: Task) | OtherSubject

  /** The voter takes part only for `TASK_DELETE` on a task. */
  function Supports(attribute: string, subject: Subject): (r: bool)
    ensures r <==> attribute == DELETE && subject.TaskSubject?
  {
    attribute in [DELETE] && subject.TaskSubject?
  }

  /** Flat membership of `ROLE_ADMIN` among the user's effective roles. */
  predicate IsAdmin(actor: User)
    reads actor
  {
    ADMIN_ROLE in actor.GetRoles()
  }

  /** The task has an owner, and that owner's username is exactly `anonyme`. */
  predicate OwnedByAnonymous(task: Task)
    reads task, task.user
  {
    task.user != null && task.user.username == Some(ANONYMOUS)
  }

  /**
   * The vote on `attribute` for `task` by `actor` (`null` when the token
   * holds no authenticated user).
   */
  function VoteOnAttribute(attribute: string, task: Task, actor: User?): (granted: bool)
    reads task, task.user, actor
    ensures actor == null ==> !granted
    ensures attribute != DELETE ==> !granted
    ensures task.user == null ==> !granted
    ensures actor != null && attribute == DELETE && OwnedByAnonymous(task) ==> (granted <==> IsAdmin(actor))
    ensures attribute == DELETE && !OwnedByAnonymous(task) ==> (granted <==> actor != null && task.user == actor)
    ensures granted ==> actor != null && (task.user == actor || IsAdmin(actor))
  {
    if actor == null then false
    else if attribute == DELETE then
      if task.GetUser() != null && task.GetUser().GetUsername() == Some(ANONYMOUS) then IsAdmin(actor)
      else task.GetUser() == actor
    else false
  }

}
