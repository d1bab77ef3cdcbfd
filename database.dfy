/** The row types the client reads from the backend, field for field. */
module Database {
  import opened Wrappers

  /** ISO-8601 timestamps are kept as the strings the backend sends. */
  type Timestamp = string

  datatype Todo = Todo(
    id: string,
    list_id: string,
    text: string,
    is_completed: bool,
    completed_at: Option<Timestamp>,
    sort_order: int,
    created_at: Timestamp,
    updated_at: Timestamp)

  datatype List = List(
    id: string,
    name: string,
    owner_id: string,
    created_at: Timestamp,
    updated_at: Timestamp)

  datatype Profile = Profile(
    id: string,
    email: string,
    display_name: Option<string>,
    avatar_url: Option<string>,
    created_at: Timestamp)

  /** The key each store looks records up by (`t.id`, `l.id`, `p.id`). */
  function TodoId(t: Todo): string { t.id }
  function ListId(l: List): string { l.id }
  function ProfileId(p: Profile): string { p.id }
}
