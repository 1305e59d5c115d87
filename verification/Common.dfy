/** What several modules share: optional values, error numbers and the geometry of block devices. */
module Common {
  datatype Option<T> = None | Some(value: T)

  const EIO := 5
  const EAGAIN := 11
  const EINVAL := 22
  const ENOMEDIUM := 123

  const SECTOR_SIZE := 512
  const CHUNK_SECTORS := 2048  // BDRV_SECTORS_PER_DIRTY_CHUNK
}
