/** The database both stores share, restricted to the rows of one task. */
module Storage {
  import opened Records

  class Database {
    var task: TaskRow
    var attempts: seq<Attempt>
    var events: seq<Event>

    ghost function State(): (t: Tables)
      reads this
    {
      Tables(task, attempts, events)
    }

    constructor (task: TaskRow, attempts: seq<Attempt>, events: seq<Event>)
      ensures State() == Tables(task, attempts, events)
    {
      this.task := task;
      this.attempts := attempts;
      this.events := events;
    }
  }
}
