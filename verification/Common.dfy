/** Shapes every other module shares. */
module Common {
  /** A nullable column. */
  datatype Option<+T> = None | Some(value: T)

  function Last<T>(s: seq<T>): T
    requires s != []
  {
    s[|s| - 1]
  }

  /** How often the character occurs. */
  function Count(name: string, c: char): nat {
    if name == "" then 0 else (if name[0] == c then 1 else 0) + Count(name[1..], c)
  }
}
