/** The record shape shared by every component: the `Capsule` interface and
    the few value types the rest of the model is built from. */
module Types {

  /** An optional value, as the `?:` / `| null` fields of the interface. */
  datatype Option<+T> = None | Some(value: T)

  /** A point in time, in milliseconds since the epoch (what a parsed dayjs
      object stands for). */
  type Time = int

  /** The two media kinds a capsule may declare. */
  datatype MediaType = Image | Video

  /** One time capsule. Dates are kept as the strings the form produced;
      `isOpened` is the `opened` flag (`opened` is a
      Dafny keyword); `mediaType` and `mediaPath` are optional and never set by any code path
      of the application. */
  datatype Capsule = Capsule(
    id: string,
    title: string,
    message: string,
    unlockDate: string,
    createdAt: string,
    isOpened: bool,
    mediaType: Option<MediaType>,
    mediaPath: Option<string>
  )
}
