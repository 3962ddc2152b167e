/** What several modules share: an optional value, and the error numbers of Linux. */
module Common {
  datatype Option<T> = None | Some(value: T)

  const EINTR: int := 4
  const EBADF: int := 9
  const EAGAIN: int := 11
  const ENOMEM: int := 12
  const EEXIST: int := 17
  const EINVAL: int := 22
  const ETIME: int := 62
  const EOPNOTSUPP: int := 95
  const ENOBUFS: int := 105
}
