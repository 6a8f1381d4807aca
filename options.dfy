/** The optional value of the TypeScript sources (`T | null`, `T | undefined`). */
module Options {

  datatype Option<+T> = None | Some(value: T)

}
