/**
 The entities of the to-do list: a task, the user who owns a list of tasks,
 and the closed set of commands the interpreter understands.
 */
module Todo {

  /** Rust's `Option`: the parser yields `None` for input it does not recognise. */
  datatype Option<+T> = None | Some(value: T)

  /** `usize::MAX` on a 64-bit target; the parser uses it as the "not a number" sentinel. */
  const USIZE_MAX: nat := 0xFFFF_FFFF_FFFF_FFFF

  /** The values a Rust `usize` can hold. */
  type Usize = n: nat | n <= USIZE_MAX

  /** One entry of the to-do list. */
  datatype Task = Task(title: string, completed: bool)

  /** Everything that belongs to one user: the name and the ordered list of tasks. */
  datatype User = User(name: string, tasks: seq<Task>)

  /**
   The commands. Task positions and undo counts are 1-based `usize`
   values exactly as the parser produced them; nothing is validated yet.
   */
  datatype Command =
    | Add(task: Task)
    | Update(id: Usize, title: string)
    | Remove(id: Usize)
    | Clear
    | Complete(id: Usize)
    | Undo(steps: Usize)
    | Help
    | Quit
}
