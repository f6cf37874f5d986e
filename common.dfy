/** Values shared by the storage layer, the reply service and the HTTP handlers. */
module Common {

  /** An optional request field: absent (`undefined` in the JSON body) or present. */
  datatype Option<+T> = None | Some(value: T)

  /** The two roles the backend ever writes into the `role` column. */
  datatype Role = User | Assistant

  /** One `{role, content}` row as the message queries return it. */
  datatype Entry = Entry(role: Role, content: string)
}
