/** Thread states shared by every part of the runtime model (common.h). */
module ThreadTypes {
  datatype ThreadState =
    | Running
    | Runnable
    | IoWait
    | LockWait
    | CondWait
    | Sleeping
    | Zombie
    | Suspended
}
