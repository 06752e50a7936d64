/** Types shared by every part of the model: an optional value, the signed-in
    user as the session library hands it out, and submitted form data. */
module Common {

  datatype Option<+T> = None | Some(value: T) {
    function GetOr(default: T): T {
      match this
      case Some(v) => v
      case None => default
    }
  }

  /** The `user` part of a session: `id`, `name`, `email`, `image` and `role`
      columns of the `user` table. `name` is declared not null there, but the
      callers guard it with `??` / `||`, so it is kept optional here. */
  datatype User = User(
    id: string,
    name: Option<string>,
    email: Option<string>,
    image: Option<string>,
    role: Option<string>)
  {
    predicate IsAdmin() { role == Some("admin") }
  }

  /** A `FormData` object: `get(key)` answers the first value appended under
      `key`, or null when nothing was. Every form here appends each key once. */
  type FormData = map<string, string>

  function Get(fd: FormData, key: string): (r: Option<string>)
    ensures r.Some? <==> key in fd
    ensures r.Some? ==> r.value == fd[key]
  {
    if key in fd then Some(fd[key]) else None
  }

  /** JavaScript truthiness of an optional string (`""`, null and undefined are falsy). */
  predicate Truthy(v: Option<string>) {
    v.Some? && v.value != ""
  }

  /** A JavaScript value as it appears in the plain objects the server code
      builds and filters: `undefined`, `null`, a string, or a `Date` (kept as
      its timestamp). */
  datatype JsValue = Undefined | Null | Str(s: string) | Date(time: int)

  /** A plain object `{ key: value, ... }`; a key whose value is `undefined`
      is still a key of the object. */
  type Record = map<string, JsValue>
}
