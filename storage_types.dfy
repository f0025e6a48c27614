/** The records of storage/minio.go: what the object store's listing
    yields for each object, and the FileInfo / FolderInfo entries the
    listings return. */
module StorageTypes {

  const Int64Min: int := -0x8000_0000_0000_0000
  const Int64Max: int := 0x7fff_ffff_ffff_ffff

  /** Go's int64. */
  type Int64 = x: int | Int64Min <= x <= Int64Max

  /** Go's int64 addition, which wraps around modulo 2^64: the one int64
      congruent to `x` modulo 2^64. */
  function Wrap64(x: int): (w: Int64)
    ensures Int64Min <= x <= Int64Max ==> w == x
    ensures (w - x) % 0x1_0000_0000_0000_0000 == 0
  {
    (x - Int64Min) % 0x1_0000_0000_0000_0000 + Int64Min
  }

  /** An instant, as a count of ticks; `ZeroTime` is Go's zero time.Time
      that `latestModified` starts from. */
  type Time = int

  const ZeroTime: Time := 0

  /** time.Time.After: strictly later. */
  predicate After(t: Time, u: Time) {
    t > u
  }

  /** One record of the object store's listing (minio.ObjectInfo, the
      fields the code reads). */
  datatype ObjectInfo = ObjectInfo(key: string, size: Int64, lastModified: Time, contentType: string)

  /** One element of the listing channel: an object, or an error that
      ends the listing. */
  datatype ListEntry = Object(info: ObjectInfo) | StreamError(message: string)

  /** FileInfo. */
  datatype FileInfo = FileInfo(name: string, size: Int64, lastModified: Time, contentType: string)

  /** FolderInfo; `Type` is always "folder". */
  datatype FolderInfo = FolderInfo(name: string, kind: string, itemCount: int, lastModified: Time)
}
