/** Identifiers, optional values and the service-level outcome shared by every table. */
module Common {

  /** Every primary key is a generated uuid string; the model treats it as an opaque token. */
  type Id = string

  datatype Option<+T> = None | Some(value: T) {
    function GetOr(default: T): T {
      match this
      case Some(v) => v
      case None => default
    }
  }

  /** One key of a JSON request body: missing, explicitly `null`, or carrying a value. */
  datatype Field<+T> = Absent | Null | Value(value: T) {
    /** The column a row inserted from this key gets when the column is nullable. */
    function ToOption(): Option<T> {
      if Value? then Some(value) else None
    }
  }

  /** NotFound is the service's NotFoundException; Conflict is a write the storage's
      constraints refuse (unique key, NOT NULL column, duplicate join row). */
  datatype Error = NotFound | Conflict

  datatype Result<+T> = Ok(value: T) | Fail(error: Error)

  /** JavaScript truthiness of an optional string: present and not empty. */
  predicate Truthy(s: Option<string>) {
    s.Some? && s.value != ""
  }
}
