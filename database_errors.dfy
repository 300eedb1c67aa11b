/** database/errors.go and the other errors the repository hands back. */
module DatabaseErrors {
  import ObjectIds

  /** The error values a repository call returns. EntityNotFound and
      InvalidArgument are the two types of errors.go; Plain is an
      errors.New value; StoreError, DecodeError and HexError carry what the
      driver or ObjectIDFromHex returned. */
  datatype Error =
    | EntityNotFound
    | InvalidArgument(Description: string)
    | Plain(text: string)
    | StoreError(message: string)
    | DecodeError(message: string)
    | HexError(cause: ObjectIds.HexError)
  {
    /** Error(): what the error prints. */
    function Message(): (m: string)
      ensures EntityNotFound? ==> m == "Entity not found"
      ensures InvalidArgument? ==> m == Description
      ensures Plain? ==> m == text
      ensures StoreError? || DecodeError? ==> m == message
      ensures HexError? ==> m == cause.Message()
    {
      match this
      case EntityNotFound => "Entity not found"
      case InvalidArgument(d) => d
      case Plain(t) => t
      case StoreError(m) => m
      case DecodeError(m) => m
      case HexError(c) => c.Message()
    }
  }

  /** EntityNotFound has no fields, so there is one such value; and it stays
      apart from an InvalidArgument even when the two print alike; an
      InvalidArgument is determined by what it prints. */
  lemma ErrorKinds(e: Error, d: string)
    ensures e.EntityNotFound? ==> e == EntityNotFound
    ensures InvalidArgument(d) != EntityNotFound
    ensures d == "Entity not found" ==> InvalidArgument(d).Message() == EntityNotFound.Message()
    ensures e.InvalidArgument? ==> e == InvalidArgument(e.Message())
  {
  }
}
