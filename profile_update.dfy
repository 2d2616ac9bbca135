/**
 * PUT /api/users/profile: the validation chain over the seven updatable fields, all of it
 * run before anything is written, and the update of the caller's `users` row.
 */
module ProfileUpdate {
  import opened Wrappers
  import opened Schema
  import opened JsText

  /**
   * A value found under a key of the body: a string, or any other JSON value (`null`, a
   * number, an object, ...), on which `.trim()` throws and the handler answers 500.
   */
  datatype BodyValue = Str(s: string) | NonString

  /** The parsed JSON body: its keys, known or not, and their values. */
  type Body = map<string, BodyValue>

  datatype Field = Name | Headline | Bio | Avatar | Location | Company | Position

  /** The order in which the handler checks the fields. */
  const FieldOrder: seq<Field> := [Name, Headline, Bio, Avatar, Location, Company, Position]

  /** The body key of each field. */
  function Key(f: Field): string {
    match f
    case Name => "name"
    case Headline => "headline"
    case Bio => "bio"
    case Avatar => "avatar"
    case Location => "location"
    case Company => "company"
    case Position => "position"
  }

  /** `updateableFields`: the keys the handler looks at; every other key is ignored. */
  const UpdatableKeys: set<string> := {"name", "headline", "bio", "avatar", "location", "company", "position"}

  datatype ProfileError =
    | NoFieldsProvided
    | InvalidName | InvalidHeadline | InvalidBio | InvalidAvatarUrl
    | InvalidLocation | InvalidCompany | InvalidPosition
    | UserNotFound
    | InternalError

  /** The field-specific code of a failed check. */
  function ErrorFor(f: Field): ProfileError {
    match f
    case Name => InvalidName
    case Headline => InvalidHeadline
    case Bio => InvalidBio
    case Avatar => InvalidAvatarUrl
    case Location => InvalidLocation
    case Company => InvalidCompany
    case Position => InvalidPosition
  }

  /** The longest trimmed value, in UTF-16 code units, of the fields that have a limit. */
  function MaxLength(f: Field): int
    requires f != Name && f != Avatar
  {
    match f
    case Headline => 120
    case Bio => 2000
    case Location => 100
    case Company => 100
    case Position => 100
  }

  /**
   * One "validate and process" block on a string value: trim it, check it, and give the
   * trimmed text to store. `isUrl(t)` stands for `new URL(t)` not throwing.
   */
  function CheckText(f: Field, s: string, isUrl: string -> bool): (r: Result<string, ProfileError>)
    ensures r.Success? ==> r.value == Trim(s)
    ensures r.Failure? ==> r.error == ErrorFor(f)
    // a name must hold a character other than white space
    ensures f == Name ==> (r.Success? <==> exists i :: 0 <= i < |s| && !IsJsSpace(s[i]))
    // an avatar of white space only is stored as ""; any other must parse as a URL
    ensures f == Avatar ==> (r.Success? <==> (Trim(s) == [] || isUrl(Trim(s))))
    ensures f == Avatar && (forall i :: 0 <= i < |s| ==> IsJsSpace(s[i])) ==> r == Success([])
    ensures f != Name && f != Avatar ==> (r.Success? <==> Utf16Length(Trim(s)) <= MaxLength(f))
  {
    var t := Trim(s);
    TrimEmptyIffAllSpace(s);
    match f
    case Name => if Utf16Length(t) < 1 then Failure(InvalidName) else Success(t)
    case Headline => if Utf16Length(t) > 120 then Failure(InvalidHeadline) else Success(t)
    case Bio => if Utf16Length(t) > 2000 then Failure(InvalidBio) else Success(t)
    case Avatar =>
      if Utf16Length(t) > 0 then
        if isUrl(t) then Success(t) else Failure(InvalidAvatarUrl)
      else Success(t)
    case Location => if Utf16Length(t) > 100 then Failure(InvalidLocation) else Success(t)
    case Company => if Utf16Length(t) > 100 then Failure(InvalidCompany) else Success(t)
    case Position => if Utf16Length(t) > 100 then Failure(InvalidPosition) else Success(t)
  }

  /** One block of the chain: an absent key is skipped, a present one is checked and recorded in `updates`. */
  function Step(body: Body, f: Field, isUrl: string -> bool, updates: map<Field, string>)
    : (r: Result<map<Field, string>, ProfileError>)
    ensures r.Success? <==> Passes(body, f, isUrl)
    ensures Key(f) !in body ==> r == Success(updates)
    ensures r.Success? && Key(f) in body ==> r.value == updates[f := Trim(body[Key(f)].s)]
    ensures r.Failure? ==> Key(f) in body && r.error == FieldError(body, f, isUrl)
  {
    if Key(f) !in body then Success(updates)
    else match body[Key(f)]
      case NonString => Failure(InternalError)
      case Str(s) =>
        var t :- CheckText(f, s, isUrl);
        Success(updates[f := t])
  }

  /** The blocks for `fields`, in order, stopping at the first failure. */
  function ValidateFrom(body: Body, isUrl: string -> bool, fields: seq<Field>, updates: map<Field, string>)
    : (r: Result<map<Field, string>, ProfileError>)
    ensures r.Failure? ==> r.error != NoFieldsProvided
    decreases |fields|
  {
    if fields == [] then Success(updates)
    else
      match Step(body, fields[0], isUrl, updates)
      case Failure(e) => Failure(e)
      case Success(u) => ValidateFrom(body, isUrl, fields[1..], u)
  }

  /** The whole validation: at least one updatable key, then the seven blocks in order. */
  function ValidateProfile(body: Body, isUrl: string -> bool): (r: Result<map<Field, string>, ProfileError>)
    ensures r == Failure(NoFieldsProvided) <==> body.Keys * UpdatableKeys == {}
  {
    if body.Keys * UpdatableKeys == {} then Failure(NoFieldsProvided)
    else ValidateFrom(body, isUrl, FieldOrder, map[])
  }

  /** Field `f` is absent from the body, or is a string that passes its check. */
  predicate Passes(body: Body, f: Field, isUrl: string -> bool) {
    Key(f) !in body || (body[Key(f)].Str? && CheckText(f, body[Key(f)].s, isUrl).Success?)
  }

  /** The code a failing field produces: 500 for a non-string, else the field's own code. */
  function FieldError(body: Body, f: Field, isUrl: string -> bool): ProfileError
    requires Key(f) in body
  {
    if body[Key(f)].NonString? then InternalError else ErrorFor(f)
  }

  /**
   * The chain over any list of distinct fields succeeds exactly when every field passes, and
   * then records the trimmed value of each present field; otherwise it reports the first
   * failing field in list order.
   */
  lemma {:induction false} ValidateFromSpec(body: Body, isUrl: string -> bool, fields: seq<Field>,
                                            updates: map<Field, string>)
    requires forall i, j :: 0 <= i < j < |fields| ==> fields[i] != fields[j]
    ensures var r := ValidateFrom(body, isUrl, fields, updates);
      && (r.Success? <==> forall k :: 0 <= k < |fields| ==> Passes(body, fields[k], isUrl))
      && (r.Success? ==> forall f :: f in r.value <==> f in updates || (f in fields && Key(f) in body))
      && (r.Success? ==> forall f :: f in fields && Key(f) in body ==>
            body[Key(f)].Str? && r.value[f] == Trim(body[Key(f)].s))
      && (r.Success? ==> forall f :: f in updates && f !in fields ==> r.value[f] == updates[f])
      && (r.Failure? ==>
            exists k :: 0 <= k < |fields| && !Passes(body, fields[k], isUrl) &&
              r.error == FieldError(body, fields[k], isUrl) &&
              forall j :: 0 <= j < k ==> Passes(body, fields[j], isUrl))
    decreases |fields|
  {
    if fields != [] {
      var f := fields[0];
      var tail := fields[1..];
      assert forall i, j :: 0 <= i < j < |tail| ==> tail[i] != tail[j] by {
        forall i, j | 0 <= i < j < |tail| ensures tail[i] != tail[j] {
          assert tail[i] == fields[i + 1] && tail[j] == fields[j + 1];
        }
      }
      assert f !in tail by {
        forall i | 0 <= i < |tail| ensures tail[i] != f {
          assert tail[i] == fields[i + 1];
        }
      }
      assert forall g :: g in fields <==> g == f || g in tail;
      match Step(body, f, isUrl, updates)
      case Failure(e) =>
      case Success(u) =>
        ValidateFromSpec(body, isUrl, tail, u);
        var r := ValidateFrom(body, isUrl, tail, u);
        assert Passes(body, f, isUrl);
        if r.Failure? {
          var k :| 0 <= k < |tail| && !Passes(body, tail[k], isUrl) &&
            r.error == FieldError(body, tail[k], isUrl) &&
            forall j :: 0 <= j < k ==> Passes(body, tail[j], isUrl);
          assert fields[k + 1] == tail[k];
          assert forall j :: 0 <= j < k + 1 ==> Passes(body, fields[j], isUrl) by {
            forall j | 0 <= j < k + 1 ensures Passes(body, fields[j], isUrl) {
              if j > 0 { assert fields[j] == tail[j - 1]; }
            }
          }
        } else {
          assert forall k :: 0 <= k < |fields| ==> Passes(body, fields[k], isUrl) by {
            forall k | 0 <= k < |fields| ensures Passes(body, fields[k], isUrl) {
              if k > 0 { assert fields[k] == tail[k - 1]; }
            }
          }
        }
    }
  }

  /**
   * PUT succeeds in validation exactly when some updatable key is present and every present
   * field passes its check; the trimmed values are then what gets written, and nothing else.
   */
  lemma ValidateProfileSpec(body: Body, isUrl: string -> bool)
    ensures var r := ValidateProfile(body, isUrl);
      && (r == Failure(NoFieldsProvided) <==> body.Keys * UpdatableKeys == {})
      && (r.Success? <==>
            body.Keys * UpdatableKeys != {} &&
            forall k :: 0 <= k < |FieldOrder| ==> Passes(body, FieldOrder[k], isUrl))
      && (r.Success? ==> forall f :: f in r.value <==> Key(f) in body)
      && (r.Success? ==> forall f :: f in r.value ==>
            body[Key(f)].Str? && r.value[f] == Trim(body[Key(f)].s))
      && (r.Failure? && r.error != NoFieldsProvided ==>
            exists k :: 0 <= k < |FieldOrder| && !Passes(body, FieldOrder[k], isUrl) &&
              r.error == FieldError(body, FieldOrder[k], isUrl) &&
              forall j :: 0 <= j < k ==> Passes(body, FieldOrder[j], isUrl))
  {
    assert forall f :: f in FieldOrder by {
      forall f ensures f in FieldOrder {
        match f
        case Name => assert FieldOrder[0] == f;
        case Headline => assert FieldOrder[1] == f;
        case Bio => assert FieldOrder[2] == f;
        case Avatar => assert FieldOrder[3] == f;
        case Location => assert FieldOrder[4] == f;
        case Company => assert FieldOrder[5] == f;
        case Position => assert FieldOrder[6] == f;
      }
    }
    if body.Keys * UpdatableKeys != {} {
      ValidateFromSpec(body, isUrl, FieldOrder, map[]);
      var r := ValidateFrom(body, isUrl, FieldOrder, map[]);
      if r.Failure? {
        var k :| 0 <= k < |FieldOrder| && !Passes(body, FieldOrder[k], isUrl) &&
          r.error == FieldError(body, FieldOrder[k], isUrl);
        assert r.error != NoFieldsProvided;
      }
    }
  }

  /** Keys outside the seven updatable ones change nothing in the outcome. */
  lemma {:induction false} ValidateFromIgnoresUnknownKey(body: Body, isUrl: string -> bool, fields: seq<Field>,
                                                         updates: map<Field, string>, k: string, v: BodyValue)
    requires k !in UpdatableKeys
    ensures ValidateFrom(body[k := v], isUrl, fields, updates) == ValidateFrom(body, isUrl, fields, updates)
    decreases |fields|
  {
    if fields != [] {
      var f := fields[0];
      assert Key(f) != k;
      assert Step(body[k := v], f, isUrl, updates) == Step(body, f, isUrl, updates);
      match Step(body, f, isUrl, updates)
      case Failure(_) =>
      case Success(u) => ValidateFromIgnoresUnknownKey(body, isUrl, fields[1..], u, k, v);
    }
  }

  lemma UnknownKeyIgnored(body: Body, isUrl: string -> bool, k: string, v: BodyValue)
    requires k !in UpdatableKeys
    ensures ValidateProfile(body[k := v], isUrl) == ValidateProfile(body, isUrl)
  {
    assert body[k := v].Keys * UpdatableKeys == body.Keys * UpdatableKeys;
    ValidateFromIgnoresUnknownKey(body, isUrl, FieldOrder, map[], k, v);
  }

  /** A headline of 120 code units once trimmed is stored; one of 121 is refused. */
  lemma HeadlineLimitAccepts(s: string, isUrl: string -> bool)
    requires Utf16Length(Trim(s)) == 120
    ensures ValidateProfile(map["headline" := Str(s)], isUrl) == Success(map[Headline := Trim(s)])
  {
    var body := map["headline" := Str(s)];
    var u := map[Headline := Trim(s)];
    assert "headline" in body.Keys * UpdatableKeys;
    assert Step(body, Name, isUrl, map[]) == Success(map[]);
    assert Step(body, Headline, isUrl, map[]) == Success(u);
    var rest := FieldOrder[1..][1..];
    assert rest == [Bio, Avatar, Location, Company, Position];
    AbsentFieldsSkipped(body, isUrl, rest, u);
  }

  /** The blocks for fields absent from the body leave the updates as they are. */
  lemma {:induction false} AbsentFieldsSkipped(body: Body, isUrl: string -> bool, fields: seq<Field>,
                                               updates: map<Field, string>)
    requires forall k :: 0 <= k < |fields| ==> Key(fields[k]) !in body
    ensures ValidateFrom(body, isUrl, fields, updates) == Success(updates)
    decreases |fields|
  {
    if fields != [] {
      AbsentFieldsSkipped(body, isUrl, fields[1..], updates);
    }
  }

  lemma HeadlineLimitRefuses(s: string, isUrl: string -> bool)
    requires Utf16Length(Trim(s)) == 121
    ensures ValidateProfile(map["headline" := Str(s)], isUrl) == Failure(InvalidHeadline)
  {
    var body := map["headline" := Str(s)];
    assert "headline" in body.Keys * UpdatableKeys;
    assert Step(body, Name, isUrl, map[]) == Success(map[]);
    assert Step(body, Headline, isUrl, map[]) == Failure(InvalidHeadline);
  }

  // ----- The row update -----

  /** The value of an updatable column of a row; the name is never null. */
  function ColumnOf(u: UserRow, f: Field): Option<string> {
    match f
    case Name => Some(u.name)
    case Headline => u.headline
    case Bio => u.bio
    case Avatar => u.avatar
    case Location => u.location
    case Company => u.company
    case Position => u.position
  }

  /** `.set(updates)`: the columns in `updates` take their new values; every other column is kept. */
  function Apply(u: UserRow, updates: map<Field, string>): (r: UserRow)
    ensures forall f :: ColumnOf(r, f) == if f in updates then Some(updates[f]) else ColumnOf(u, f)
    ensures r.id == u.id && r.email == u.email && r.password == u.password && r.createdAt == u.createdAt
  {
    u.(name := if Name in updates then updates[Name] else u.name,
       headline := if Headline in updates then Some(updates[Headline]) else u.headline,
       bio := if Bio in updates then Some(updates[Bio]) else u.bio,
       avatar := if Avatar in updates then Some(updates[Avatar]) else u.avatar,
       location := if Location in updates then Some(updates[Location]) else u.location,
       company := if Company in updates then Some(updates[Company]) else u.company,
       position := if Position in updates then Some(updates[Position]) else u.position)
  }

  /** The user as the response shows it: every column but the password. */
  datatype UserView = UserView(
    id: UserId,
    name: string,
    email: string,
    headline: Option<string>,
    bio: Option<string>,
    avatar: Option<string>,
    location: Option<string>,
    company: Option<string>,
    position: Option<string>,
    createdAt: Timestamp)

  function WithoutPassword(u: UserRow): UserView {
    UserView(u.id, u.name, u.email, u.headline, u.bio, u.avatar, u.location, u.company, u.position, u.createdAt)
  }

  /** The `users` table, keyed by its primary key. */
  class UserTable {
    var users: map<UserId, UserRow>

    ghost predicate Valid()
      reads this
    {
      KeyedById(users)
    }

    constructor (users: map<UserId, UserRow>)
      requires forall id :: id in users ==> users[id].id == id
      ensures Valid() && this.users == users
    {
      this.users := users;
    }

    /**
     * PUT /api/users/profile for the authenticated `caller`: all checks first, in the fixed
     * field order, then one update of the caller's row. Any failure leaves the table as it was.
     */
    method UpdateProfile(caller: UserId, body: Body, isUrl: string -> bool)
      returns (r: Result<UserView, ProfileError>)
      requires Valid()
      modifies this
      ensures Valid()
      ensures r.Failure? ==> users == old(users)
      ensures ValidateProfile(body, isUrl).Failure? ==> r == Failure(ValidateProfile(body, isUrl).error)
      ensures ValidateProfile(body, isUrl).Success? && caller !in old(users) ==> r == Failure(UserNotFound)
      ensures ValidateProfile(body, isUrl).Success? && caller in old(users) ==>
        && users == old(users)[caller := Apply(old(users)[caller], ValidateProfile(body, isUrl).value)]
        && r == Success(WithoutPassword(users[caller]))
    {
      if body.Keys * UpdatableKeys == {} {
        return Failure(NoFieldsProvided);
      }
      ghost var spec := ValidateFrom(body, isUrl, FieldOrder, map[]);
      var updates: map<Field, string> := map[];
      var step: Result<map<Field, string>, ProfileError>;

      step := Step(body, Name, isUrl, updates);
      if step.Failure? { return Failure(step.error); }
      updates := step.value;
      assert spec == ValidateFrom(body, isUrl, FieldOrder[1..], updates);

      step := Step(body, Headline, isUrl, updates);
      if step.Failure? { return Failure(step.error); }
      updates := step.value;
      assert spec == ValidateFrom(body, isUrl, FieldOrder[2..], updates);

      step := Step(body, Bio, isUrl, updates);
      if step.Failure? { return Failure(step.error); }
      updates := step.value;
      assert spec == ValidateFrom(body, isUrl, FieldOrder[3..], updates);

      step := Step(body, Avatar, isUrl, updates);
      if step.Failure? { return Failure(step.error); }
      updates := step.value;
      assert spec == ValidateFrom(body, isUrl, FieldOrder[4..], updates);

      step := Step(body, Location, isUrl, updates);
      if step.Failure? { return Failure(step.error); }
      updates := step.value;
      assert spec == ValidateFrom(body, isUrl, FieldOrder[5..], updates);

      step := Step(body, Company, isUrl, updates);
      if step.Failure? { return Failure(step.error); }
      updates := step.value;
      assert spec == ValidateFrom(body, isUrl, FieldOrder[6..], updates);

      step := Step(body, Position, isUrl, updates);
      if step.Failure? { return Failure(step.error); }
      updates := step.value;
      assert spec == ValidateFrom(body, isUrl, FieldOrder[7..], updates);

      if caller !in users {
        return Failure(UserNotFound);
      }
      var updated := Apply(users[caller], updates);
      users := users[caller := updated];
      r := Success(WithoutPassword(updated));
    }
  }
}
