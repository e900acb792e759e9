/**
  The user record of internal/models/User.go: its fields, which of them are nullable,
  what `json.Marshal` shows of it, and `SetPassword`.
*/
module Models {
  import opened Wrappers
  import opened GoValues

  /** `map[string]any`, stored as a JSON column. */
  type Preferences = map<string, Value>

  /**
    One user row. `PasswordHash`, `AppleID` and `AppleEmail` are Go pointers and may be
    nil; `Email` and `Username` are plain strings and so can never be NULL in the table.
    Uniqueness of email, username and (non-null) Apple ID is a property of the table,
    stated in module Repositories.
  */
  datatype User = User(
    id: nat,
    email: string,
    passwordHash: Option<string>,
    username: string,
    avatarURL: string,
    preferences: Preferences,
    appleID: Option<string>,
    appleEmail: Option<string>)

  /** The JSON object `json.Marshal` writes for a User: fields tagged `json:"-"` are absent. */
  datatype PublicUser = PublicUser(
    id: nat,
    email: string,
    username: string,
    avatarURL: Option<string>,   // None: key omitted (`omitempty` on an empty string)
    preferences: Preferences)

  /** The keys of the JSON object. */
  function JsonKeys(v: PublicUser): set<string>
  {
    {"id", "email", "username", "preferences"} + (if v.avatarURL.Some? then {"avatar_url"} else {})
  }

  /** Names under which a secret field could appear in JSON: the Go name and its snake-case form. */
  const SecretKeys: set<string> :=
    {"PasswordHash", "password_hash", "AppleID", "apple_id", "AppleEmail", "apple_email"}

  function PublicView(u: User): (v: PublicUser)
    ensures JsonKeys(v) !! SecretKeys
    ensures "avatar_url" in JsonKeys(v) <==> u.avatarURL != ""
    ensures v.avatarURL.Some? ==> v.avatarURL.value == u.avatarURL
    ensures v.id == u.id && v.email == u.email && v.username == u.username
    ensures v.preferences == u.preferences
  {
    PublicUser(u.id, u.email, u.username,
               if u.avatarURL == "" then None else Some(u.avatarURL),
               u.preferences)
  }

  /** Two users that differ only in their secret fields look the same from outside. */
  lemma ViewHidesSecrets(u: User, hash: Option<string>, apple: Option<string>, appleEmail: Option<string>)
    ensures PublicView(u.(passwordHash := hash, appleID := apple, appleEmail := appleEmail)) == PublicView(u)
  {
  }

  /** `bcrypt.DefaultCost`. */
  const DefaultCost: nat := 10

  /** A hashing function as the model sees it: password and cost to a digest or an error message. */
  type Hasher = (string, nat) -> Result<string, string>

  /** A `*models.User`: a mutable cell holding one record. */
  class UserRef {
    var value: User

    constructor (u: User)
      ensures value == u
    {
      value := u;
    }

    /**
      Hashes `password` with `hash` at the default cost. On success the hash is stored and
      nothing else changes; on failure the error is returned and the record is untouched.
    */
    method SetPassword(password: string, hash: Hasher) returns (err: Option<string>)
      modifies this
      ensures err.Some? <==> hash(password, DefaultCost).Failure?
      ensures err.Some? ==> err.value == hash(password, DefaultCost).error && value == old(value)
      ensures err.None? ==> value == old(value).(passwordHash := Some(hash(password, DefaultCost).value))
    {
      var hashed := hash(password, DefaultCost);
      if hashed.Failure? {
        return Some(hashed.error);
      }
      value := value.(passwordHash := Some(hashed.value));
      err := None;
    }
  }
}
