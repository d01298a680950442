/** Shared vocabulary of the model. */
module Types {
  /** The largest value of a 64-bit `size_t`, which the source writes `(size_t)-1`. */
  const SIZE_MAX: nat := 0xFFFF_FFFF_FFFF_FFFF

  type SizeT = n: nat | n <= SIZE_MAX

  /** A thread, named by its address (which is also what the thread-id system call returns). */
  type Tid = nat

  /** A pipe, named by the id that `ipcm_pipe_create` gives it. */
  type PipeId = nat

  type Byte = b: nat | b < 256

  // results of system calls
  const SYSCALL_RESULT_OK: int := 0
  const SYSCALL_RESULT_ERROR: int := -1
  const SYSCALL_RESULT_BAD_PARAM: int := -2
  const SYSCALL_RESULT_NOT_FOUND: int := -3
  const SYSCALL_RESULT_PIPE_EMPTY: int := -1000
  const SYSCALL_RESULT_PIPE_FULL: int := -1001

  datatype Option<+T> = None | Some(value: T)
}
