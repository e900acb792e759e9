/**
  The profile handlers of internal/controllers/user_controller.go: validation of the
  `user_id` query parameter, the `updates` map UpdateProfile builds from a partial request,
  and the status each handler gives a service error. The user service is a collaborator
  passed in as a function.
*/
module UserController {
  import opened Wrappers
  import opened GoValues
  import opened Models
  import opened Http

  const UserIDRequired: string := "user_id is required"
  const InvalidUserID: string := "invalid user_id"
  const UserDeleted: string := "User deleted successfully"

  // ---------------------------------------------------------------- strconv.ParseUint(s, 10, 64)

  predicate IsDigit(ch: char)
  {
    '0' <= ch <= '9'
  }

  predicate AllDigits(s: string)
  {
    forall i :: 0 <= i < |s| ==> IsDigit(s[i])
  }

  /** The number a string of decimal digits denotes (leading zeros allowed). */
  function DecimalValue(s: string): nat
    requires AllDigits(s)
  {
    if s == [] then 0
    else DecimalValue(s[..|s| - 1]) * 10 + (s[|s| - 1] - '0') as nat
  }

  /**
    `strconv.ParseUint(s, 10, 64)`: a non-empty string of decimal digits whose value fits
    in 64 bits. No sign, no underscores, no surrounding spaces.
  */
  function ParseUint(s: string): (r: Option<nat>)
    ensures r.Some? <==> s != "" && AllDigits(s) && DecimalValue(s) < TwoTo64
    ensures r.Some? ==> r.value == DecimalValue(s) && r.value < TwoTo64
  {
    if s != "" && AllDigits(s) && DecimalValue(s) < TwoTo64 then Some(DecimalValue(s)) else None
  }

  /** `strconv.FormatUint(n, 10)`: the shortest decimal spelling of `n`. */
  function FormatUint(n: nat): (s: string)
    decreases n
  {
    if n < 10 then ['0' + n as char]
    else FormatUint(n / 10) + ['0' + (n % 10) as char]
  }

  lemma {:induction false} FormatUintDenotes(n: nat)
    ensures FormatUint(n) != "" && AllDigits(FormatUint(n))
    ensures DecimalValue(FormatUint(n)) == n
    decreases n
  {
    var s := FormatUint(n);
    if n >= 10 {
      FormatUintDenotes(n / 10);
      var prefix := FormatUint(n / 10);
      assert s[..|s| - 1] == prefix;
      assert s[|s| - 1] == '0' + (n % 10) as char;
    }
  }

  /** Parsing a formatted 64-bit value gives it back. */
  lemma ParseFormatRoundTrip(n: nat)
    requires n < TwoTo64
    ensures ParseUint(FormatUint(n)) == Some(n)
  {
    FormatUintDenotes(n);
  }

  function Pow10(k: nat): (p: nat)
    ensures p >= 1
  {
    if k == 0 then 1 else 10 * Pow10(k - 1)
  }

  /** A string of k digits denotes a number below 10^k. */
  lemma {:induction false} DecimalValueBound(s: string)
    requires AllDigits(s)
    ensures DecimalValue(s) < Pow10(|s|)
  {
    if s != [] {
      var prefix := s[..|s| - 1];
      assert AllDigits(prefix) by {
        forall i | 0 <= i < |prefix| ensures IsDigit(prefix[i]) {
          assert prefix[i] == s[i];
        }
      }
      DecimalValueBound(prefix);
    }
  }

  /**
    Every non-empty string of at most 19 decimal digits is accepted: 10^19 is below 2^64,
    so only 20 or more digits can overflow.
  */
  lemma ShortDigitStringsParse(s: string)
    requires s != "" && AllDigits(s) && |s| <= 19
    ensures ParseUint(s) == Some(DecimalValue(s))
  {
    DecimalValueBound(s);
    Pow10Monotone(|s|, 19);
    Pow10Add(10, 9);
    assert Pow10(10) == 10_000_000_000 && Pow10(9) == 1_000_000_000;
  }

  lemma {:induction false} Pow10Add(j: nat, k: nat)
    ensures Pow10(j + k) == Pow10(j) * Pow10(k)
    decreases k
  {
    if k > 0 {
      Pow10Add(j, k - 1);
      assert Pow10(j + k) == 10 * Pow10(j + k - 1);
    }
  }

  lemma {:induction false} Pow10Monotone(j: nat, k: nat)
    requires j <= k
    ensures Pow10(j) <= Pow10(k)
    decreases k
  {
    if j < k {
      Pow10Monotone(j, k - 1);
    }
  }

  /** Digits are not enough: the value must also fit in 64 bits; and a sign is refused. */
  lemma ParseUintEdges()
    ensures ParseUint("") == None
    ensures ParseUint("-1") == None
    ensures ParseUint("007") == Some(7)
    ensures ParseUint(FormatUint(TwoTo64)) == None
  {
    FormatUintDenotes(TwoTo64);
    assert !IsDigit('-');
    var s := "007";
    assert AllDigits(s);
    assert s[..2] == "00" && s[..2][..1] == "0" && s[..2][..1][..0] == "";
    assert DecimalValue("0") == 0;
    assert DecimalValue("00") == 0;
    assert DecimalValue(s) == DecimalValue("00") * 10 + 7;
  }

  // ---------------------------------------------------------------- the user_id parameter

  /**
    The checks all three handlers make on `ctx.Query("user_id")` ("" when absent): a
    missing value and an unparsable one are both 400 replies, with different messages;
    otherwise the parsed id, which is the only identity the handlers use.
  */
  function UserIDParam(query: string): (r: Result<nat, Response>)
    ensures query == "" ==> r == Failure(Response(StatusBadRequest, ErrorJson(UserIDRequired)))
    ensures query != "" && ParseUint(query).None? ==>
      r == Failure(Response(StatusBadRequest, ErrorJson(InvalidUserID)))
    ensures r.Success? <==> ParseUint(query).Some?
    ensures r.Success? ==> r.value == DecimalValue(query) && r.value < TwoTo64
  {
    if query == "" then Failure(Response(StatusBadRequest, ErrorJson(UserIDRequired)))
    else match ParseUint(query)
      case None => Failure(Response(StatusBadRequest, ErrorJson(InvalidUserID)))
      case Some(id) => Success(id)
  }

  /** Every 64-bit id, written in decimal, is accepted as itself. */
  lemma UserIDParamAcceptsFormatted(n: nat)
    requires n < TwoTo64
    ensures UserIDParam(FormatUint(n)) == Success(n)
  {
    ParseFormatRoundTrip(n);
  }

  // ---------------------------------------------------------------- handlers

  /**
    The user-service calls. A `(*models.User, error)` result is `Success(None)` for the
    `(nil, nil)` pair, which the handlers marshal as the JSON `null`.
  */
  type GetUserByIDFn = nat -> Result<Option<User>, string>
  type DeleteUserFn = nat -> Option<string>

  /**
    `GetProfile`: a service error is a 404; a found user is a 200 with its public view, and
    a nil user a 200 with `null`.
  */
  function GetProfile(query: string, getUserByID: GetUserByIDFn): (r: Response)
    ensures UserIDParam(query).Failure? ==> r == UserIDParam(query).error
    ensures UserIDParam(query).Success? ==>
      var found := getUserByID(UserIDParam(query).value);
      && (found.Failure? ==> r == Response(StatusNotFound, ErrorJson(found.error)))
      && (found == Success(None) ==> r == Response(StatusOK, NullJson))
      && (found.Success? && found.value.Some? ==> r == Response(StatusOK, UserJson(PublicView(found.value.value))))
  {
    match UserIDParam(query)
    case Failure(refusal) => refusal
    case Success(id) =>
      match getUserByID(id)
      case Failure(e) => Response(StatusNotFound, ErrorJson(e))
      case Success(None) => Response(StatusOK, NullJson)
      case Success(Some(u)) => Response(StatusOK, UserJson(PublicView(u)))
  }

  /** `DeleteUser`: a service error is a 500; otherwise a 200 confirmation. */
  function DeleteUser(query: string, deleteUser: DeleteUserFn): (r: Response)
    ensures UserIDParam(query).Failure? ==> r == UserIDParam(query).error
    ensures UserIDParam(query).Success? ==>
      var err := deleteUser(UserIDParam(query).value);
      && (err.Some? ==> r == Response(StatusInternalServerError, ErrorJson(err.value)))
      && (err.None? ==> r == Response(StatusOK, MessageJson(UserDeleted)))
  {
    match UserIDParam(query)
    case Failure(refusal) => refusal
    case Success(id) =>
      match deleteUser(id)
      case Some(e) => Response(StatusInternalServerError, ErrorJson(e))
      case None => Response(StatusOK, MessageJson(UserDeleted))
  }

  /**
    A query that fails validation gets its reply without the service: any two services
    give the same reply.
  */
  lemma RejectedQueryNeverReachesService(query: string, g1: GetUserByIDFn, g2: GetUserByIDFn,
                                         d1: DeleteUserFn, d2: DeleteUserFn)
    requires query == "" || ParseUint(query).None?
    ensures GetProfile(query, g1) == GetProfile(query, g2)
    ensures DeleteUser(query, d1) == DeleteUser(query, d2)
    ensures GetProfile(query, g1).status == StatusBadRequest
  {
  }

  /**
    The handlers act on the user named by the query and no other: two services that agree
    on that one id give the same reply.
  */
  lemma ServiceSeesOnlyQueriedID(query: string, g1: GetUserByIDFn, g2: GetUserByIDFn,
                                 d1: DeleteUserFn, d2: DeleteUserFn)
    requires ParseUint(query).Some?
    requires g1(ParseUint(query).value) == g2(ParseUint(query).value)
    requires d1(ParseUint(query).value) == d2(ParseUint(query).value)
    ensures GetProfile(query, g1) == GetProfile(query, g2)
    ensures DeleteUser(query, d1) == DeleteUser(query, d2)
  {
  }

  // ---------------------------------------------------------------- UpdateProfile

  /** `UpdateProfileRequest`; `preferences` is None when the JSON had no (or a null) map. */
  datatype UpdateProfileRequest = UpdateProfileRequest(
    email: string, username: string, avatarURL: string, preferences: Option<Preferences>)

  /** The values stored in `updates`: a string field or the preferences map. */
  datatype UpdateValue = Text(s: string) | Prefs(p: Preferences)

  const UpdateKeys: set<string> := {"email", "username", "avatar_url", "preferences"}

  /**
    `updates` is the map UpdateProfile sends for `req`: a key for each non-empty string
    field and for a non-nil preferences map (even an empty one), holding that field.
  */
  ghost predicate UpdatesFor(req: UpdateProfileRequest, updates: map<string, UpdateValue>)
  {
    && updates.Keys <= UpdateKeys
    && ("email" in updates <==> req.email != "")
    && ("email" in updates ==> updates["email"] == Text(req.email))
    && ("username" in updates <==> req.username != "")
    && ("username" in updates ==> updates["username"] == Text(req.username))
    && ("avatar_url" in updates <==> req.avatarURL != "")
    && ("avatar_url" in updates ==> updates["avatar_url"] == Text(req.avatarURL))
    && ("preferences" in updates <==> req.preferences.Some?)
    && ("preferences" in updates ==> updates["preferences"] == Prefs(req.preferences.value))
  }

  /** At most one map fits a request. */
  lemma {:induction false} UpdatesForIsUnique(req: UpdateProfileRequest, a: map<string, UpdateValue>,
                                              b: map<string, UpdateValue>)
    requires UpdatesFor(req, a) && UpdatesFor(req, b)
    ensures a == b
  {
    assert a.Keys == b.Keys by {
      forall k | k in a ensures k in b {
        assert k in UpdateKeys;
      }
      forall k | k in b ensures k in a {
        assert k in UpdateKeys;
      }
    }
    forall k | k in a ensures a[k] == b[k] {
      assert k in UpdateKeys;
    }
  }

  /** The four conditional inserts that build `updates`. */
  method BuildUpdates(req: UpdateProfileRequest) returns (updates: map<string, UpdateValue>)
    ensures UpdatesFor(req, updates)
    ensures req.email == "" && req.username == "" && req.avatarURL == "" && req.preferences.None? ==>
      updates == map[]
  {
    updates := map[];
    if req.email != "" {
      updates := updates["email" := Text(req.email)];
    }
    if req.username != "" {
      updates := updates["username" := Text(req.username)];
    }
    if req.avatarURL != "" {
      updates := updates["avatar_url" := Text(req.avatarURL)];
    }
    if req.preferences.Some? {
      updates := updates["preferences" := Prefs(req.preferences.value)];
    }
  }

  type UpdateUserProfileFn = (nat, map<string, UpdateValue>) -> Result<Option<User>, string>

  /**
    `UpdateProfile`: the `user_id` checks first, then the body binding (`body` is the
    outcome of `ShouldBindJSON`), then the service with the queried id and the built
    `updates`; a service error is a 400, an updated user a 200 with its public view, and a
    nil user a 200 with `null`.
  */
  method UpdateProfile(query: string, body: Result<UpdateProfileRequest, string>,
                       updateUserProfile: UpdateUserProfileFn) returns (r: Response)
    ensures UserIDParam(query).Failure? ==> r == UserIDParam(query).error
    ensures UserIDParam(query).Success? && body.Failure? ==> r == Response(StatusBadRequest, ErrorJson(body.error))
    ensures UserIDParam(query).Success? && body.Success? ==>
      forall updates :: UpdatesFor(body.value, updates) ==>
        var updated := updateUserProfile(UserIDParam(query).value, updates);
        && (updated.Failure? ==> r == Response(StatusBadRequest, ErrorJson(updated.error)))
        && (updated == Success(None) ==> r == Response(StatusOK, NullJson))
        && (updated.Success? && updated.value.Some? ==>
              r == Response(StatusOK, UserJson(PublicView(updated.value.value))))
  {
    var param := UserIDParam(query);
    if param.Failure? {
      return param.error;
    }
    if body.Failure? {
      return Response(StatusBadRequest, ErrorJson(body.error));
    }
    var updates := BuildUpdates(body.value);
    var updated := updateUserProfile(param.value, updates);
    if updated.Failure? {
      r := Response(StatusBadRequest, ErrorJson(updated.error));
    } else if updated.value.None? {
      r := Response(StatusOK, NullJson);
    } else {
      r := Response(StatusOK, UserJson(PublicView(updated.value.value)));
    }
    forall other | UpdatesFor(body.value, other) ensures other == updates {
      UpdatesForIsUnique(body.value, other, updates);
    }
  }
}
