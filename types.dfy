/** The records the application passes around: the catalog item and user profile of
    src/lib/types.ts, the identity provider's user, the review record the reviews
    section writes and reads, document data as a field map, and the permission-denial
    report every failed backend call produces. */
module Types {

  datatype Option<+T> = None | Some(value: T)

  /** `type: 'movie' | 'tv'` */
  datatype Kind = Movie | Tv

  /** One movie or show. `isTrending` is optional in the source record. */
  datatype Content = Content(
    id: string,
    title: string,
    kind: Kind,
    description: string,
    posterPath: string,
    coverPath: string,
    genres: seq<string>,
    rating: real,
    duration: string,
    cast: seq<string>,
    releaseYear: int,
    isTrending: Option<bool>)

  /** The profile document stored at `users/{uid}`. */
  datatype UserProfile = UserProfile(displayName: string, email: string, photoURL: Option<string>)

  /** The fields of the identity provider's user that the components read;
      the provider reports absent fields as null. */
  datatype AuthUser = AuthUser(
    uid: string,
    email: Option<string>,
    displayName: Option<string>,
    photoURL: Option<string>)

  /** Authorization claims; `admin` is the only key any component consults. */
  datatype Claims = Claims(admin: bool)

  /** A document of `content/{id}/reviews` as the reviews section lists it.
      `createdAt` is the server timestamp in seconds, absent while the write is pending. */
  datatype Review = Review(
    id: string,
    userId: string,
    displayName: string,
    photoURL: string,
    rating: int,
    comment: string,
    createdAt: Option<int>)

  /** A field value of a stored document; `ServerTimestamp` is the sentinel a write
      carries in place of a time the backend fills in. */
  datatype Value = Str(s: string) | Num(n: int) | Bool(b: bool) | ServerTimestamp

  /** The data of one document: field name to value. */
  type Fields = map<string, Value>

  /** The operations a permission-denial report can name. */
  datatype Operation = Get | List | Create | Update | Delete

  /** The event sent on the process-wide error channel when the backend refuses a call. */
  datatype PermissionError = PermissionError(
    path: string,
    operation: Operation,
    requestResourceData: Option<Fields>)

  /** A transient notification. */
  datatype Toast = Toast(title: string, description: Option<string>, destructive: bool)

  /** JavaScript truthiness of a nullable string: null, undefined and "" are falsy. */
  predicate Truthy(s: Option<string>)
  {
    s.Some? && s.value != ""
  }

  /** `a || b` on nullable strings: the first operand when it is truthy, else the second. */
  function Or(a: Option<string>, b: Option<string>): (r: Option<string>)
    ensures Truthy(a) ==> r == a
    ensures !Truthy(a) ==> r == b
  {
    if Truthy(a) then a else b
  }

  /** `a || d` with a string literal `d` as fallback. */
  function OrDefault(a: Option<string>, d: string): (r: string)
    ensures Truthy(a) ==> r == a.value
    ensures !Truthy(a) ==> r == d
  {
    if Truthy(a) then a.value else d
  }

  /** The value behind `claims?.admin` in a boolean context. */
  predicate IsAdmin(claims: Option<Claims>)
  {
    claims.Some? && claims.value.admin
  }
}
