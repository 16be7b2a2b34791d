/** A task of either pool: a function pointer and its argument.  What the function does is not modelled. */
module Tasks {
  datatype Task = Task(fn: int, arg: int)
}
