/** The two record types that the batch functions read from the database
    (todo.go and user.go). Identifiers are Go `int32`. */
module Entities {

  newtype int32 = x: int | -0x8000_0000 <= x < 0x8000_0000

  /** One row of the `todos` table; `userId` is the owner's user id. */
  datatype Todo = Todo(id: int32, title: string, content: string, userId: int32)

  /** The three columns of a `users` row that the user loader scans. */
  datatype User = User(id: int32, name: string, age: int32)
}
