/** The persisted records the services read and write. Only the fields the
    modelled code touches are kept. */
module Entities {
  import opened Errors
  import opened Int32Text

  datatype Category = Category(id: Int32, name: string)

  /** `CreatedById` is nullable: the post service stores the nullable
      result of `GetUserId` in it. */
  datatype Comment = Comment(id: Int32, content: string, createdById: Option<Int32>)

  datatype Post = Post(
    id: Int32,
    title: string,
    description: string,
    brains: int,
    comments: seq<Comment>,
    categories: seq<Category>,
    createdById: Option<Int32>)

  /** A user account. `hashedPassword` is null until registration sets it;
      the plaintext password has no field. */
  datatype User = User(
    id: Int32,
    email: string,
    firstName: string,
    lastName: string,
    dateOfBirth: int,
    permissionId: Int32,
    hashedPassword: Option<string>,
    userImageUri: Option<string>)
}
